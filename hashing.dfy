/**
 * The geometric-hash quad code of Lang et al. (2010), "Astrometry.net: Blind
 * astrometric calibration of arbitrary astronomical images".
 *
 * Four star positions are encoded as the coordinates of the two inner stars
 * C and D in the frame where the most distant pair A, B sits at (0,0) and
 * (1,1).  Coordinates are exact reals: the encoder only adds, subtracts,
 * multiplies and divides, and each `norm(x) <= sqrt(2)` test of the source is
 * the same test as `|x|^2 <= 2`.
 */
module Hashing {
  import opened Wrappers

  /** A star position (ra, dec) seen as a point of the plane. */
  datatype Point = Point(x: real, y: real)

  /** A hash code: the normalised coordinates of C followed by those of D. */
  datatype Code = Code(c0: real, c1: real, c2: real, c3: real)

  /** Which input positions play the roles A, B, C and D. */
  datatype Roles = Roles(a: nat, b: nat, c: nat, d: nat)

  datatype EncodeError =
    | UnpackError        // all four positions coincide, so three points are left for `C, D`
    | GeometryInvariant  // the raw code fails the lens test

  function Add(p: Point, q: Point): Point { Point(p.x + q.x, p.y + q.y) }

  function Sub(p: Point, q: Point): Point { Point(p.x - q.x, p.y - q.y) }

  function Scale(s: real, p: Point): Point { Point(s * p.x, s * p.y) }

  /** Squared Euclidean norm. */
  function Norm2(p: Point): real { p.x * p.x + p.y * p.y }

  /** Squared Euclidean distance. */
  function Dist2(p: Point, q: Point): real { Norm2(Sub(p, q)) }

  predicate AllEqual(p: seq<Point>)
    requires |p| == 4
  {
    p[0] == p[1] && p[1] == p[2] && p[2] == p[3]
  }

  // ---------------------------------------------------------------------------
  // Sign facts about squared distances
  // ---------------------------------------------------------------------------

  /**
   * The same real under another name.  A strict bound on a square is stated
   * through the product `a * Copy(a)`, which the solver does not treat as a
   * square and whose sign it therefore keeps when the bound is used.
   */
  ghost function Copy(r: real): real { r }

  /** A positive number below a * a, for a nonzero a. */
  lemma SquareBound(a: real) returns (e: real)
    requires a != 0.0
    ensures e > 0.0 && a * a >= e
  {
    if a > 0.0 {
      e := a * Copy(a);
    } else {
      e := (-a) * Copy(-a);
    }
  }

  /** A positive number below a * a + b * b, for (a, b) other than the origin. */
  lemma SumSquaresBound(a: real, b: real) returns (e: real)
    requires a != 0.0 || b != 0.0
    ensures e > 0.0 && a * a + b * b >= e
  {
    if a != 0.0 {
      e := SquareBound(a);
    } else {
      e := SquareBound(b);
    }
  }

  /** Distinct points are a positive squared distance apart. */
  lemma Dist2Pos(p: Point, q: Point)
    requires p != q
    ensures Dist2(p, q) > 0.0
  {
    var e := SumSquaresBound(p.x - q.x, p.y - q.y);
  }

  lemma Dist2Sym(p: Point, q: Point)
    ensures Dist2(p, q) == Dist2(q, p)
  {
  }

  // ---------------------------------------------------------------------------
  // _sort_stars
  // ---------------------------------------------------------------------------

  /**
   * The 3x4 upper-triangle distance matrix, flattened in row-major order:
   * entry 4*i + j holds the squared distance of positions i and j above the
   * diagonal and 0 on and below it.  The source stores the distances
   * themselves; the square root is strictly increasing, so both matrices
   * have their maxima, and their first maximum, at the same entries.
   */
  function DistMat(p: seq<Point>): (m: seq<real>)
    requires |p| == 4
    ensures |m| == 12
  {
    seq(12, k requires 0 <= k < 12 => if k / 4 < k % 4 then Dist2(p[k / 4], p[k % 4]) else 0.0)
  }

  /** Entry 4*i + j, above the diagonal, is the squared distance of positions i and j. */
  lemma DistMatAt(p: seq<Point>, i: nat, j: nat)
    requires |p| == 4 && i < j < 4
    ensures DistMat(p)[4 * i + j] == Dist2(p[i], p[j])
  {
    assert (4 * i + j) / 4 == i && (4 * i + j) % 4 == j;
  }

  /** Row-major indexing: k is row k / 4, column k % 4. */
  lemma RowMajor(k: nat)
    requires k < 12
    ensures k == 4 * (k / 4) + k % 4 && k / 4 < 3 && k % 4 < 4
  {
  }

  /** The index of the first maximum of `s`, as numpy's argmax returns it. */
  function ArgMax(s: seq<real>): (k: nat)
    requires |s| > 0
    ensures k < |s|
    ensures forall j :: 0 <= j < |s| ==> s[j] <= s[k]
    ensures forall j :: 0 <= j < k ==> s[j] < s[k]
  {
    if |s| == 1 then 0
    else
      var k' := ArgMax(s[..|s| - 1]);
      if s[|s| - 1] > s[k'] then |s| - 1 else k'
  }

  /** The indices t, t+1, ..., 3 other than `i` and `j`, in ascending order. */
  function OthersFrom(t: nat, i: nat, j: nat): (r: seq<nat>)
    ensures forall u :: u in r <==> t <= u < 4 && u != i && u != j
    decreases 4 - t
  {
    if t >= 4 then [] else (if t != i && t != j then [t] else []) + OthersFrom(t + 1, i, j)
  }

  /** For i < j < 4 exactly two indices remain, in ascending order. */
  lemma OthersOfPair(i: nat, j: nat)
    requires i < j < 4
    ensures var r := OthersFrom(0, i, j); |r| == 2 && r[0] < r[1]
  {
    if i == 0 && j == 1 {
      assert OthersFrom(0, i, j) == [2, 3];
    } else if i == 0 && j == 2 {
      assert OthersFrom(0, i, j) == [1, 3];
    } else if i == 0 && j == 3 {
      assert OthersFrom(0, i, j) == [1, 2];
    } else if i == 1 && j == 2 {
      assert OthersFrom(0, i, j) == [0, 3];
    } else if i == 1 && j == 3 {
      assert OthersFrom(0, i, j) == [0, 2];
    } else {
      assert OthersFrom(0, i, j) == [0, 1];
    }
  }

  /**
   * The roles chosen by _sort_stars: (A, B) is the first maximum of the
   * distance matrix, C and D the other positions in index order.  When all
   * four positions coincide the maximum is the entry (0,0), three positions are
   * left over, and unpacking them into `C, D` fails: the result is None.
   */
  function SortIndices(p: seq<Point>): (r: Option<Roles>)
    requires |p| == 4
    ensures r.Some? <==> !AllEqual(p)
    ensures r.Some? ==> IsRoles(r.value) && p[r.value.a] != p[r.value.b]
  {
    var k := ArgMax(DistMat(p));
    var rest := OthersFrom(0, k / 4, k % 4);
    LeftOver(p);
    if |rest| == 2 then Some(Roles(k / 4, k % 4, rest[0], rest[1])) else None
  }

  /** The roles are a permutation of 0..3, with A before B and C before D. */
  predicate IsRoles(q: Roles)
  {
    && q.a < q.b < 4 && q.c < q.d < 4
    && q.c != q.a && q.c != q.b && q.d != q.a && q.d != q.b
  }

  /** The first maximum of a constant sequence is its first entry. */
  lemma ArgMaxConstant(m: seq<real>)
    requires |m| > 0 && forall j :: 0 <= j < |m| ==> m[j] == m[0]
    ensures ArgMax(m) == 0
  {
  }

  /** Zero on and below the diagonal, as the distance matrix is. */
  predicate ZeroBelow(m: seq<real>)
  {
    |m| == 12 && m[0] == 0.0 && m[4] == 0.0 && m[5] == 0.0 && m[8] == 0.0 && m[9] == 0.0 && m[10] == 0.0
  }

  /** One positive entry moves the first maximum above the diagonal. */
  lemma ArgMaxAbove(m: seq<real>, j: nat)
    requires ZeroBelow(m) && j < 12 && m[j] > 0.0
    ensures var k := ArgMax(m); k / 4 < k % 4 && m[k] > 0.0
  {
    var k := ArgMax(m);
    assert m[k] >= m[j];
    assert k == 1 || k == 2 || k == 3 || k == 6 || k == 7 || k == 11;
  }

  /** Four coinciding positions: the first maximum is the entry (0,0). */
  lemma MaxEntryAllEqual(p: seq<Point>)
    requires |p| == 4 && AllEqual(p)
    ensures ArgMax(DistMat(p)) == 0
  {
    var m := DistMat(p);
    forall j | 0 <= j < 12
      ensures m[j] == m[0]
    {
      DistMatFirst(p);
      if j / 4 < j % 4 {
        RowMajor(j);
        Dist2Zero(p[j / 4], p[j % 4]);
      }
    }
    ArgMaxConstant(m);
  }

  /** Otherwise the first maximum is a pair of distinct positions above the diagonal. */
  lemma MaxEntryAbove(p: seq<Point>)
    requires |p| == 4 && !AllEqual(p)
    ensures var k := ArgMax(DistMat(p)); k / 4 < k % 4 && p[k / 4] != p[k % 4]
  {
    var m := DistMat(p);
    if p[0] != p[1] {
      Dist2Pos(p[0], p[1]);
      ArgMaxAbove(m, 1);
    } else if p[1] != p[2] {
      Dist2Pos(p[1], p[2]);
      ArgMaxAbove(m, 6);
    } else {
      Dist2Pos(p[2], p[3]);
      ArgMaxAbove(m, 11);
    }
    var k := ArgMax(m);
    RowMajor(k);
    Dist2Distinct(p[k / 4], p[k % 4]);
  }

  lemma Dist2Distinct(p: Point, q: Point)
    requires Dist2(p, q) > 0.0
    ensures p != q
  {
  }

  lemma Dist2Zero(p: Point, q: Point)
    requires p == q
    ensures Dist2(p, q) == 0.0
  {
  }

  /**
   * Two positions are left for C and D exactly when the four positions do not
   * all coincide, and then they differ from the chosen pair.
   */
  lemma LeftOver(p: seq<Point>)
    requires |p| == 4
    ensures var k := ArgMax(DistMat(p));
      var rest := OthersFrom(0, k / 4, k % 4);
      && (|rest| == 2 <==> !AllEqual(p))
      && (|rest| == 2 ==> k / 4 < k % 4 && rest[0] < rest[1] && p[k / 4] != p[k % 4])
  {
    var k := ArgMax(DistMat(p));
    if AllEqual(p) {
      MaxEntryAllEqual(p);
      assert OthersFrom(0, 0, 0) == [1, 2, 3];
    } else {
      MaxEntryAbove(p);
      OthersOfPair(k / 4, k % 4);
    }
  }

  /** Every pairwise squared distance is at most the entry at the first maximum. */
  lemma PairAtMostMax(p: seq<Point>, i: nat, j: nat)
    requires |p| == 4 && i < 4 && j < 4
    ensures Dist2(p[i], p[j]) <= DistMat(p)[ArgMax(DistMat(p))]
  {
    if i < j {
      PairAboveAtMostMax(p, i, j);
    } else if j < i {
      PairAboveAtMostMax(p, j, i);
      Dist2Sym(p[i], p[j]);
    } else {
      Dist2Zero(p[i], p[j]);
      MaxNonneg(p);
    }
  }

  lemma PairAboveAtMostMax(p: seq<Point>, i: nat, j: nat)
    requires |p| == 4 && i < j < 4
    ensures Dist2(p[i], p[j]) <= DistMat(p)[ArgMax(DistMat(p))]
  {
    DistMatAt(p, i, j);
    EntryAtMostMax(DistMat(p), 4 * i + j);
  }

  lemma MaxNonneg(p: seq<Point>)
    requires |p| == 4
    ensures 0.0 <= DistMat(p)[ArgMax(DistMat(p))]
  {
    DistMatFirst(p);
    EntryAtMostMax(DistMat(p), 0);
  }

  lemma DistMatFirst(p: seq<Point>)
    requires |p| == 4
    ensures DistMat(p)[0] == 0.0
  {
  }

  lemma EntryAtMostMax(m: seq<real>, j: nat)
    requires j < |m|
    ensures m[j] <= m[ArgMax(m)]
  {
  }

  /** |B - A| is at least every distance among the four positions. */
  lemma SortIndicesMaximal(p: seq<Point>)
    requires |p| == 4 && SortIndices(p).Some?
    ensures var q := SortIndices(p).value;
      forall i, j :: 0 <= i < 4 && 0 <= j < 4 ==> Dist2(p[i], p[j]) <= Dist2(p[q.a], p[q.b])
  {
    forall i, j | 0 <= i < 4 && 0 <= j < 4 {
      MaximalAt(p, i, j);
    }
  }

  lemma MaximalAt(p: seq<Point>, i: nat, j: nat)
    requires |p| == 4 && SortIndices(p).Some? && i < 4 && j < 4
    ensures Dist2(p[i], p[j]) <= Dist2(p[SortIndices(p).value.a], p[SortIndices(p).value.b])
  {
    var k := ArgMax(DistMat(p));
    RowMajor(k);
    LeftOver(p);
    PairAtMostMax(p, i, j);
  }

  /** Every pair before (A, B) in row-major order is strictly closer: the first maximum. */
  lemma SortIndicesFirst(p: seq<Point>)
    requires |p| == 4 && SortIndices(p).Some?
    ensures var q := SortIndices(p).value;
      forall i, j :: 0 <= i < j < 4 && (i < q.a || (i == q.a && j < q.b)) ==>
        Dist2(p[i], p[j]) < Dist2(p[q.a], p[q.b])
  {
    var q := SortIndices(p).value;
    forall i, j | 0 <= i < j < 4 && (i < q.a || (i == q.a && j < q.b)) {
      FirstAt(p, i, j);
    }
  }

  lemma FirstAt(p: seq<Point>, i: nat, j: nat)
    requires |p| == 4 && SortIndices(p).Some? && i < j < 4
    requires i < SortIndices(p).value.a || (i == SortIndices(p).value.a && j < SortIndices(p).value.b)
    ensures Dist2(p[i], p[j]) < Dist2(p[SortIndices(p).value.a], p[SortIndices(p).value.b])
  {
    var m := DistMat(p);
    var k := ArgMax(m);
    LeftOver(p);
    RowMajor(k);
    DistMatAt(p, i, j);
    assert 4 * i + j < k;
  }

  // ---------------------------------------------------------------------------
  // generate_quad_code
  // ---------------------------------------------------------------------------

  /**
   * E·M·v for the shifted B = `b`: M = [[b.y, -b.x], [b.x, b.y]] rotates by the
   * angle of b, E = [[1, 1], [-1, 1]] rotates by -45 degrees.
   */
  function Rotate(b: Point, v: Point): Point
  {
    var mv := Point(b.y * v.x - b.x * v.y, b.x * v.x + b.y * v.y);
    Point(mv.x + mv.y, -mv.x + mv.y)
  }

  /** The `scale` of the frame spanned by `a` and `b`: 1 / |b - a|^2. */
  function FrameScale(a: Point, b: Point): (s: real)
    requires a != b
    ensures s * Dist2(b, a) == 1.0
  {
    Dist2Pos(b, a);
    var l := Dist2(b, a);
    Reciprocal(l, 1.0 / l);
    1.0 / l
  }

  /** The position of `v` in the frame that sends `a` to (0,0) and `b` to (1,1). */
  function Normalize(a: Point, b: Point, v: Point): Point
    requires a != b
  {
    Scale(FrameScale(a, b), Rotate(Sub(b, a), Sub(v, a)))
  }

  /** The raw code: C and D normalised, concatenated. */
  function RawCode(a: Point, b: Point, c: Point, d: Point): Code
    requires a != b
  {
    var cn := Normalize(a, b, c);
    var dn := Normalize(a, b, d);
    Code(cn.x, cn.y, dn.x, dn.y)
  }

  /** Inside both disks of radius sqrt(2) centred at (0,0) and at (1,1). */
  predicate InLens(v: Point)
  {
    Norm2(v) <= 2.0 && Norm2(Sub(v, Point(1.0, 1.0))) <= 2.0
  }

  /** The guard of the ValueError: C or D lies in the lens. */
  predicate LensTest(c: Code)
  {
    InLens(Point(c.c0, c.c1)) || InLens(Point(c.c2, c.c3))
  }

  /** Point reflection through (1/2, 1/2): `1 - code`. */
  function Reflect(c: Code): Code
  {
    Code(1.0 - c.c0, 1.0 - c.c1, 1.0 - c.c2, 1.0 - c.c3)
  }

  /** Exchange the C half and the D half: `code[[2, 3, 0, 1]]`. */
  function SwapHalves(c: Code): Code
  {
    Code(c.c2, c.c3, c.c0, c.c1)
  }

  /** A code as _rectify_code leaves it. */
  predicate Canonical(c: Code)
  {
    c.c0 + c.c2 <= 1.0 && c.c0 <= c.c2
  }

  /** _rectify_code: reflect when c0 + c2 > 1, then order the halves by their first coordinate. */
  function Rectify(c: Code): (r: Code)
    ensures Canonical(r)
    ensures r == c || r == Reflect(c) || r == SwapHalves(c) || r == SwapHalves(Reflect(c))
  {
    var c' := if c.c0 + c.c2 > 1.0 then Reflect(c) else c;
    if c'.c0 > c'.c2 then SwapHalves(c') else c'
  }

  /**
   * generate_quad_code: sort the stars, normalise C and D, check the lens
   * test and rectify.  It fails only when the four positions coincide; the
   * lens test always passes over exact reals.
   */
  function GenerateQuadCode(p: seq<Point>): (r: Result<Code, EncodeError>)
    requires |p| == 4
    ensures r.Success? <==> !AllEqual(p)
    ensures r.Failure? ==> r.error == UnpackError
    ensures r.Success? ==> Canonical(r.value)
  {
    match SortIndices(p)
    case None => Failure(UnpackError)
    case Some(q) =>
      var raw := RawCode(p[q.a], p[q.b], p[q.c], p[q.d]);
      RawCodeInLens(p);
      if !LensTest(raw) then Failure(GeometryInvariant) else Success(Rectify(raw))
  }

  /** For four positions not all equal the code is the rectified raw code of the chosen roles. */
  lemma QuadCodeOfRoles(p: seq<Point>)
    requires |p| == 4 && !AllEqual(p)
    ensures var q := SortIndices(p).value;
      GenerateQuadCode(p) == Success(Rectify(RawCode(p[q.a], p[q.b], p[q.c], p[q.d])))
  {
    RawCodeInLens(p);
  }

  /** What the table builder keeps of one quad besides its star ids. */
  datatype Geometry = Geometry(code: Code, origin: Point, alpha: real, scale: real)

  /**
   * The encoder as the table builder calls it, with the geometry of the
   * frame: the code of GenerateQuadCode, the origin A, the rotation angle of
   * the shifted B and the scale 1 / |B - A|^2.  The arctangent is a parameter
   * of the model.
   */
  function QuadGeometry(p: seq<Point>, atan2: (real, real) -> real): (r: Result<Geometry, EncodeError>)
    requires |p| == 4
    ensures r.Success? <==> !AllEqual(p)
    ensures r.Failure? ==> r == Failure(UnpackError)
    ensures r.Success? ==> GenerateQuadCode(p) == Success(r.value.code)
    ensures r.Success? ==> var q := SortIndices(p).value;
      && r.value.origin == p[q.a]
      && r.value.scale == FrameScale(p[q.a], p[q.b])
      && r.value.alpha == atan2(p[q.b].x - p[q.a].x, p[q.b].y - p[q.a].y)
  {
    match SortIndices(p)
    case None => Failure(UnpackError)
    case Some(q) =>
      var shifted := Sub(p[q.b], p[q.a]);
      Success(Geometry(GenerateQuadCode(p).value, p[q.a], atan2(shifted.x, shifted.y), FrameScale(p[q.a], p[q.b])))
  }

  /** The stored scale makes |B - A| the unit length of the frame. */
  lemma QuadGeometryScale(p: seq<Point>, atan2: (real, real) -> real)
    requires |p| == 4 && !AllEqual(p)
    ensures var q := SortIndices(p).value;
      QuadGeometry(p, atan2).value.scale * Dist2(p[q.b], p[q.a]) == 1.0
  {
  }

  /** An encoder of four positions into a code and the geometry of its frame. */
  type Encoder = seq<Point> -> Result<Geometry, EncodeError>

  /**
   * What the table builder relies on of the encoder it calls with
   * `return_geometry=True`: on four positions it fails exactly when
   * generate_quad_code does, and otherwise returns that code.
   */
  ghost predicate IsQuadEncoder(encode: Encoder)
  {
    forall p {:trigger GenerateQuadCode(p)} :: |p| == 4 ==>
      && (encode(p).Success? <==> GenerateQuadCode(p).Success?)
      && (encode(p).Success? ==> GenerateQuadCode(p) == Success(encode(p).value.code))
  }

  /** QuadGeometry is such an encoder, whatever the arctangent. */
  lemma QuadGeometryEncodes(atan2: (real, real) -> real)
    ensures IsQuadEncoder(p => if |p| == 4 then QuadGeometry(p, atan2) else Failure(UnpackError))
  {
    var encode: Encoder := p => if |p| == 4 then QuadGeometry(p, atan2) else Failure(UnpackError);
    forall p | |p| == 4
      ensures encode(p).Success? <==> GenerateQuadCode(p).Success?
      ensures encode(p).Success? ==> GenerateQuadCode(p) == Success(encode(p).value.code)
    {
      assert encode(p) == QuadGeometry(p, atan2);
    }
  }

  // ---------------------------------------------------------------------------
  // Geometry of the normalising frame
  // ---------------------------------------------------------------------------

  /** E·M scales lengths by sqrt(2)·|b|. */
  lemma RotateNorm(b: Point, v: Point)
    ensures Norm2(Rotate(b, v)) == 2.0 * Norm2(b) * Norm2(v)
  {
    var mv := Point(b.y * v.x - b.x * v.y, b.x * v.x + b.y * v.y);
    calc {
      Norm2(mv);
      (b.y * v.x - b.x * v.y) * (b.y * v.x - b.x * v.y) + (b.x * v.x + b.y * v.y) * (b.x * v.x + b.y * v.y);
      (b.x * b.x + b.y * b.y) * (v.x * v.x + v.y * v.y);
    }
    calc {
      Norm2(Rotate(b, v));
      (mv.x + mv.y) * (mv.x + mv.y) + (-mv.x + mv.y) * (-mv.x + mv.y);
      2.0 * (mv.x * mv.x + mv.y * mv.y);
    }
  }

  /** E·M is linear in its second argument. */
  lemma RotateSub(b: Point, u: Point, w: Point)
    ensures Rotate(b, Sub(u, w)) == Sub(Rotate(b, u), Rotate(b, w))
  {
    assert b.y * (u.x - w.x) - b.x * (u.y - w.y) == (b.y * u.x - b.x * u.y) - (b.y * w.x - b.x * w.y);
    assert b.x * (u.x - w.x) + b.y * (u.y - w.y) == (b.x * u.x + b.y * u.y) - (b.x * w.x + b.y * w.y);
  }

  /** E·M sends b itself to (|b|^2, |b|^2). */
  lemma RotateSelf(b: Point)
    ensures Rotate(b, b) == Point(Norm2(b), Norm2(b))
  {
    assert b.y * b.x - b.x * b.y == 0.0;
  }

  lemma ScaleNorm(s: real, v: Point)
    ensures Norm2(Scale(s, v)) == s * s * Norm2(v)
  {
  }

  /** The reciprocal of a nonzero l, times l, is 1; times itself and l, it is itself. */
  lemma Reciprocal(l: real, s: real)
    requires l != 0.0 && s == 1.0 / l
    ensures s * l == 1.0 && s * s * l == s
  {
    assert s * s * l == s * (s * l);
  }

  /** A is the origin of the frame. */
  lemma NormalizedA(a: Point, b: Point)
    requires a != b
    ensures Normalize(a, b, a) == Point(0.0, 0.0)
  {
  }

  /** The normalised B is exactly (1,1). */
  lemma NormalizedB(a: Point, b: Point)
    requires a != b
    ensures Normalize(a, b, b) == Point(1.0, 1.0)
  {
    RotateSelf(Sub(b, a));
    var s := FrameScale(a, b);
    assert s * Dist2(b, a) == 1.0;
  }

  /** Squared distance to the frame's origin: times |B - A|^2 it is twice the squared distance to A. */
  lemma NormalizedDistanceToA(a: Point, b: Point, v: Point) returns (n: real, l: real, t: real)
    requires a != b
    ensures n == Norm2(Normalize(a, b, v)) && l == Dist2(b, a) && t == Dist2(v, a)
    ensures n * l == 2.0 * t
  {
    n, l, t := Norm2(Normalize(a, b, v)), Dist2(b, a), Dist2(v, a);
    var s := FrameScale(a, b);
    var n' := ScaledRotatedNorm(s, Sub(b, a), Sub(v, a));
    ScaledNormTimes(s, l, t, n);
  }

  /** The squared norm of a scaled E·M image, as a product of the parts. */
  lemma ScaledRotatedNorm(s: real, b: Point, u: Point) returns (n: real)
    ensures n == Norm2(Scale(s, Rotate(b, u))) && n == s * s * (2.0 * Norm2(b) * Norm2(u))
  {
    n := Norm2(Scale(s, Rotate(b, u)));
    RotateNorm(b, u);
    ScaleNorm(s, Rotate(b, u));
  }

  /** The frame map is affine: differences of normalised points are normalised differences. */
  lemma NormalizeSub(a: Point, b: Point, v: Point)
    requires a != b
    ensures Sub(Normalize(a, b, v), Normalize(a, b, b)) == Scale(FrameScale(a, b), Rotate(Sub(b, a), Sub(v, b)))
  {
    var bShift := Sub(b, a);
    RotateSub(bShift, Sub(v, a), Sub(b, a));
    assert Sub(Sub(v, a), Sub(b, a)) == Sub(v, b);
  }

  /** Squared distance to (1,1): times |B - A|^2 it is twice the squared distance to B. */
  lemma NormalizedDistanceToB(a: Point, b: Point, v: Point) returns (n: real, l: real, t: real)
    requires a != b
    ensures n == Norm2(Sub(Normalize(a, b, v), Point(1.0, 1.0))) && l == Dist2(b, a) && t == Dist2(v, b)
    ensures n * l == 2.0 * t
  {
    var n', l', t' := NormalizedDistanceToA(b, a, v);
    NormalizeSwap(a, b, v);
    Norm2Flip(Normalize(a, b, v), Point(1.0, 1.0));
    Dist2Sym(a, b);
    n, l, t := n', l', t';
  }

  lemma Norm2Flip(u: Point, v: Point)
    ensures Norm2(Sub(v, u)) == Norm2(Sub(u, v))
  {
    Dist2Sym(u, v);
  }

  /** With s * l == 1: (s * s * (2 * l * t)) * l == 2 * t. */
  lemma ScaledNormTimes(s: real, l: real, t: real, n: real)
    requires s * l == 1.0
    requires n == s * s * (2.0 * l * t)
    ensures n * l == 2.0 * t
  {
    assert n * l == 2.0 * t * (s * l) * (s * l);
  }

  /** n * l == 2 * t with 0 < l and t <= l gives n <= 2. */
  lemma RatioAtMostTwo(n: real, l: real, t: real)
    requires l > 0.0 && n * l == 2.0 * t && t <= l
    ensures n <= 2.0
  {
  }

  /** A point no farther from A than |B - A| normalises into the disk of radius sqrt(2) around (0,0). */
  lemma NearAInDisk(a: Point, b: Point, v: Point)
    requires a != b && Dist2(v, a) <= Dist2(b, a)
    ensures Norm2(Normalize(a, b, v)) <= 2.0
  {
    var n, l, t := NormalizedDistanceToA(a, b, v);
    Dist2Pos(b, a);
    RatioAtMostTwo(n, l, t);
  }

  /** A point no farther from B than |B - A| normalises into the disk of radius sqrt(2) around (1,1). */
  lemma NearBInDisk(a: Point, b: Point, v: Point)
    requires a != b && Dist2(v, b) <= Dist2(b, a)
    ensures Norm2(Sub(Normalize(a, b, v), Point(1.0, 1.0))) <= 2.0
  {
    var n, l, t := NormalizedDistanceToB(a, b, v);
    Dist2Pos(b, a);
    RatioAtMostTwo(n, l, t);
  }

  /** A point no farther from A and from B than |B - A| normalises into the lens. */
  lemma InLensWhenClose(a: Point, b: Point, v: Point)
    requires a != b
    requires Dist2(v, a) <= Dist2(b, a) && Dist2(v, b) <= Dist2(b, a)
    ensures InLens(Normalize(a, b, v))
  {
    NearAInDisk(a, b, v);
    NearBInDisk(a, b, v);
  }

  /**
   * Because A, B is a most distant pair, both normalised C and D lie in the
   * lens, so the test guarding the ValueError never fails.
   */
  lemma RawCodeInLens(p: seq<Point>)
    requires |p| == 4 && SortIndices(p).Some?
    ensures var q := SortIndices(p).value;
      var raw := RawCode(p[q.a], p[q.b], p[q.c], p[q.d]);
      InLens(Point(raw.c0, raw.c1)) && InLens(Point(raw.c2, raw.c3)) && LensTest(raw)
  {
    var q := SortIndices(p).value;
    MaximalAt(p, q.c, q.a);
    MaximalAt(p, q.c, q.b);
    MaximalAt(p, q.d, q.a);
    MaximalAt(p, q.d, q.b);
    Dist2Sym(p[q.a], p[q.b]);
    QuadInLens(p[q.a], p[q.b], p[q.c], p[q.d]);
  }

  /** C and D within |B - A| of both A and B: both halves of the raw code lie in the lens. */
  lemma QuadInLens(a: Point, b: Point, c: Point, d: Point)
    requires a != b
    requires Dist2(c, a) <= Dist2(b, a) && Dist2(c, b) <= Dist2(b, a)
    requires Dist2(d, a) <= Dist2(b, a) && Dist2(d, b) <= Dist2(b, a)
    ensures var raw := RawCode(a, b, c, d);
      InLens(Point(raw.c0, raw.c1)) && InLens(Point(raw.c2, raw.c3)) && LensTest(raw)
  {
    InLensWhenClose(a, b, c);
    InLensWhenClose(a, b, d);
  }


  // ---------------------------------------------------------------------------
  // Why _rectify_code makes the code independent of the order of the stars
  // ---------------------------------------------------------------------------

  /** A canonical code is left alone. */
  lemma RectifyCanonical(c: Code)
    requires Canonical(c)
    ensures Rectify(c) == c
  {
  }

  /** Rectifying twice is rectifying once. */
  lemma RectifyIdempotent(c: Code)
    ensures Rectify(Rectify(c)) == Rectify(c)
  {
    RectifyCanonical(Rectify(c));
  }

  /** Away from the line c0 + c2 == 1, a code and its reflection rectify alike. */
  lemma RectifyReflect(c: Code)
    requires c.c0 + c.c2 != 1.0
    ensures Rectify(Reflect(c)) == Rectify(c)
  {
  }

  /** Away from c0 == c2, a code and its half-swap rectify alike. */
  lemma RectifySwap(c: Code)
    requires c.c0 != c.c2
    ensures Rectify(SwapHalves(c)) == Rectify(c)
  {
  }

  /** Exchanging A and B reflects the frame through (1/2, 1/2). */
  lemma NormalizeSwap(a: Point, b: Point, v: Point)
    requires a != b
    ensures Normalize(b, a, v) == Sub(Point(1.0, 1.0), Normalize(a, b, v))
  {
    var s := FrameScale(a, b);
    Dist2Sym(a, b);
    assert FrameScale(b, a) == s by {
      assert FrameScale(b, a) * Dist2(b, a) == 1.0;
      Dist2Pos(b, a);
      assert s * Dist2(b, a) == 1.0;
      UniqueReciprocal(Dist2(b, a), s, FrameScale(b, a));
    }
    NormalizedB(a, b);
    NormalizeSub(a, b, v);
    var u := Sub(v, b);
    assert Rotate(Sub(a, b), u) == Sub(Point(0.0, 0.0), Rotate(Sub(b, a), u));
  }

  lemma UniqueReciprocal(l: real, s: real, s': real)
    requires l != 0.0 && s * l == 1.0 && s' * l == 1.0
    ensures s == s'
  {
    assert (s - s') * l == 0.0;
  }

  /** Exchanging A and B reflects the raw code. */
  lemma RawCodeSwapAB(a: Point, b: Point, c: Point, d: Point)
    requires a != b
    ensures RawCode(b, a, c, d) == Reflect(RawCode(a, b, c, d))
  {
    NormalizeSwap(a, b, c);
    NormalizeSwap(a, b, d);
  }

  /** Exchanging C and D swaps the halves of the raw code. */
  lemma RawCodeSwapCD(a: Point, b: Point, c: Point, d: Point)
    requires a != b
    ensures RawCode(a, b, d, c) == SwapHalves(RawCode(a, b, c, d))
  {
  }

  // ---------------------------------------------------------------------------
  // Invariance under similarity transformations of the plane
  // ---------------------------------------------------------------------------

  /** Complex multiplication: rotation by the angle of w combined with scaling by |w|. */
  function Mul(w: Point, z: Point): Point
  {
    Point(w.x * z.x - w.y * z.y, w.x * z.y + w.y * z.x)
  }

  /** The similarity v -> w * v + t of the plane; for w != 0 it keeps shapes. */
  function Similar(w: Point, t: Point, v: Point): Point
  {
    Add(Mul(w, v), t)
  }

  /** The four positions, each moved by the same similarity. */
  function MapQuad(w: Point, t: Point, p: seq<Point>): (r: seq<Point>)
    requires |p| == 4
    ensures |r| == 4 && forall i :: 0 <= i < 4 ==> r[i] == Similar(w, t, p[i])
  {
    seq(4, i requires 0 <= i < 4 => Similar(w, t, p[i]))
  }

  lemma SubSimilar(w: Point, t: Point, u: Point, v: Point)
    ensures Sub(Similar(w, t, u), Similar(w, t, v)) == Mul(w, Sub(u, v))
  {
    assert w.x * u.x - w.y * u.y + t.x - (w.x * v.x - w.y * v.y + t.x) == w.x * (u.x - v.x) - w.y * (u.y - v.y);
    assert w.x * u.y + w.y * u.x + t.y - (w.x * v.y + w.y * v.x + t.y) == w.x * (u.y - v.y) + w.y * (u.x - v.x);
  }

  /** |w z|^2 == |w|^2 |z|^2. */
  lemma Norm2Mul(w: Point, z: Point)
    ensures Norm2(Mul(w, z)) == Norm2(w) * Norm2(z)
  {
    calc {
      Norm2(Mul(w, z));
      (w.x * z.x - w.y * z.y) * (w.x * z.x - w.y * z.y) + (w.x * z.y + w.y * z.x) * (w.x * z.y + w.y * z.x);
      (w.x * w.x + w.y * w.y) * (z.x * z.x + z.y * z.y);
    }
  }

  /** A similarity multiplies every squared distance by |w|^2. */
  lemma Dist2Similar(w: Point, t: Point, u: Point, v: Point)
    ensures Dist2(Similar(w, t, u), Similar(w, t, v)) == Norm2(w) * Dist2(u, v)
  {
    SubSimilar(w, t, u, v);
    Norm2Mul(w, Sub(u, v));
  }

  /** E·M of rotated and scaled inputs is E·M of the originals, scaled by |w|^2. */
  lemma RotateMul(w: Point, b: Point, u: Point)
    ensures Rotate(Mul(w, b), Mul(w, u)) == Scale(Norm2(w), Rotate(b, u))
  {
    CrossMul(w.x, w.y, b.x, b.y, u.x, u.y);
    DotMul(w.x, w.y, b.x, b.y, u.x, u.y);
  }

  /** The cross product of w * b and w * u, for w = (m, n), b = (p, q), u = (r, t). */
  lemma CrossMul(m: real, n: real, p: real, q: real, r: real, t: real)
    ensures (m * q + n * p) * (m * r - n * t) - (m * p - n * q) * (m * t + n * r)
         == (m * m + n * n) * (q * r - p * t)
  {
  }

  /** The dot product of w * b and w * u, for w = (m, n), b = (p, q), u = (r, t). */
  lemma DotMul(m: real, n: real, p: real, q: real, r: real, t: real)
    ensures (m * p - n * q) * (m * r - n * t) + (m * q + n * p) * (m * t + n * r)
         == (m * m + n * n) * (p * r + q * t)
  {
  }

  /** A similarity with w != 0 does not move any position onto another. */
  lemma SimilarInjective(w: Point, t: Point, u: Point, v: Point)
    requires w != Point(0.0, 0.0) && u != v
    ensures Similar(w, t, u) != Similar(w, t, v)
  {
    var e := SumSquaresBound(w.x, w.y);
    Dist2Pos(u, v);
    Dist2Similar(w, t, u, v);
    PositiveProduct(Norm2(w), Dist2(u, v), Dist2(Similar(w, t, u), Similar(w, t, v)));
  }

  /** The product of two positive reals, named `c`, is positive. */
  lemma PositiveProduct(a: real, b: real, c: real)
    requires a > 0.0 && b > 0.0 && c == a * b
    ensures c > 0.0
  {
  }

  /** A similarity with w != 0 leaves the normalised frame coordinates unchanged. */
  lemma NormalizeSimilar(w: Point, t: Point, a: Point, b: Point, v: Point)
    requires w != Point(0.0, 0.0) && a != b
    ensures Similar(w, t, a) != Similar(w, t, b)
    ensures Normalize(Similar(w, t, a), Similar(w, t, b), Similar(w, t, v)) == Normalize(a, b, v)
  {
    SimilarInjective(w, t, a, b);
    var a', b', v' := Similar(w, t, a), Similar(w, t, b), Similar(w, t, v);
    SubSimilar(w, t, b, a);
    SubSimilar(w, t, v, a);
    RotateMul(w, Sub(b, a), Sub(v, a));
    var n := Norm2(w);
    var s, s' := FrameScale(a, b), FrameScale(a', b');
    Dist2Similar(w, t, b, a);
    // s' * n * |b - a|^2 == 1, so s' * n == s
    assert (s' * n) * Dist2(b, a) == 1.0;
    Dist2Pos(b, a);
    UniqueReciprocal(Dist2(b, a), s' * n, s);
    var r := Rotate(Sub(b, a), Sub(v, a));
    assert Scale(s', Scale(n, r)) == Scale(s, r) by {
      assert s' * (n * r.x) == (s' * n) * r.x;
      assert s' * (n * r.y) == (s' * n) * r.y;
    }
  }

  /** Multiplying by a positive constant keeps strict order. */
  lemma ScaleOrder(c: real, x: real, y: real)
    requires c > 0.0
    ensures c * x > c * y <==> x > y
  {
    if x > y {
      PositiveProduct(c, x - y, c * (x - y));
    } else {
      PositiveProduct(c, y - x + 1.0, c * (y - x + 1.0));
    }
  }

  /** The first maximum depends only on the order among the entries. */
  lemma {:induction false} ArgMaxSameOrder(m: seq<real>, m': seq<real>)
    requires |m| == |m'| > 0
    requires forall j, k :: 0 <= j < |m| && 0 <= k < |m| ==> (m'[j] > m'[k] <==> m[j] > m[k])
    ensures ArgMax(m') == ArgMax(m)
  {
    if |m| > 1 {
      var n := |m| - 1;
      ArgMaxSameOrder(m[..n], m'[..n]);
      var k := ArgMax(m[..n]);
      assert m[..n][k] == m[k] && m'[..n][k] == m'[k];
    }
  }

  /** Scaling every entry by the same positive factor keeps their order. */
  lemma ScaledSameOrder(m: seq<real>, m': seq<real>, c: real)
    requires |m| == |m'| && c > 0.0
    requires forall k :: 0 <= k < |m| ==> m'[k] == c * m[k]
    ensures forall j, k :: 0 <= j < |m| && 0 <= k < |m| ==> (m'[j] > m'[k] <==> m[j] > m[k])
  {
    forall j, k | 0 <= j < |m| && 0 <= k < |m|
      ensures m'[j] > m'[k] <==> m[j] > m[k]
    {
      ScaleOrder(c, m[j], m[k]);
    }
  }

  lemma Norm2Pos(w: Point)
    requires w != Point(0.0, 0.0)
    ensures Norm2(w) > 0.0
  {
    var e := SumSquaresBound(w.x, w.y);
  }

  /** The first maximum does not move when every entry is scaled by the same positive factor. */
  lemma ArgMaxScaled(m: seq<real>, m': seq<real>, c: real)
    requires |m| == |m'| > 0 && c > 0.0
    requires forall k :: 0 <= k < |m| ==> m'[k] == c * m[k]
    ensures ArgMax(m') == ArgMax(m)
  {
    ScaledSameOrder(m, m', c);
    ArgMaxSameOrder(m, m');
  }

  /** A similarity multiplies the whole distance matrix by |w|^2. */
  lemma DistMatSimilar(w: Point, t: Point, p: seq<Point>)
    requires |p| == 4
    ensures forall k :: 0 <= k < 12 ==> DistMat(MapQuad(w, t, p))[k] == Norm2(w) * DistMat(p)[k]
  {
    forall k | 0 <= k < 12
      ensures DistMat(MapQuad(w, t, p))[k] == Norm2(w) * DistMat(p)[k]
    {
      DistMatSimilarEntry(w, t, p, k);
    }
  }

  lemma DistMatSimilarEntry(w: Point, t: Point, p: seq<Point>, k: nat)
    requires |p| == 4 && k < 12
    ensures DistMat(MapQuad(w, t, p))[k] == Norm2(w) * DistMat(p)[k]
  {
    if k / 4 < k % 4 {
      DistMatSimilarAbove(w, t, p, k);
    } else {
      DistMatSimilarBelow(w, t, p, k);
    }
  }

  lemma DistMatSimilarAbove(w: Point, t: Point, p: seq<Point>, k: nat)
    requires |p| == 4 && k < 12 && k / 4 < k % 4
    ensures DistMat(MapQuad(w, t, p))[k] == Norm2(w) * DistMat(p)[k]
  {
    var p' := MapQuad(w, t, p);
    RowMajor(k);
    Dist2SimilarOf(w, t, p[k / 4], p[k % 4], p'[k / 4], p'[k % 4]);
    DistMatScaled(p, p', Norm2(w), k);
  }

  lemma DistMatSimilarBelow(w: Point, t: Point, p: seq<Point>, k: nat)
    requires |p| == 4 && k < 12 && k / 4 >= k % 4
    ensures DistMat(MapQuad(w, t, p))[k] == Norm2(w) * DistMat(p)[k]
  {
    DistMatBelow(p, k);
    DistMatBelow(MapQuad(w, t, p), k);
    ScaleZero(Norm2(w), DistMat(p)[k]);
  }

  lemma Dist2SimilarOf(w: Point, t: Point, u: Point, v: Point, u': Point, v': Point)
    requires u' == Similar(w, t, u) && v' == Similar(w, t, v)
    ensures Dist2(u', v') == Norm2(w) * Dist2(u, v)
  {
    Dist2Similar(w, t, u, v);
  }

  lemma DistMatScaled(p: seq<Point>, p': seq<Point>, c: real, k: nat)
    requires |p| == 4 && |p'| == 4 && k < 12 && k / 4 < k % 4
    requires Dist2(p'[k / 4], p'[k % 4]) == c * Dist2(p[k / 4], p[k % 4])
    ensures DistMat(p')[k] == c * DistMat(p)[k]
  {
  }

  /** Entries on and below the diagonal are zero. */
  lemma DistMatBelow(p: seq<Point>, k: nat)
    requires |p| == 4 && k < 12 && k / 4 >= k % 4
    ensures DistMat(p)[k] == 0.0
  {
  }

  lemma ScaleZero(c: real, x: real)
    requires x == 0.0
    ensures c * x == 0.0
  {
  }

  /** A similarity with w != 0 makes four positions coincide exactly when they coincided before. */
  lemma AllEqualSimilar(w: Point, t: Point, p: seq<Point>)
    requires |p| == 4 && w != Point(0.0, 0.0)
    ensures AllEqual(MapQuad(w, t, p)) <==> AllEqual(p)
  {
    if p[0] != p[1] {
      SimilarInjective(w, t, p[0], p[1]);
    } else if p[1] != p[2] {
      SimilarInjective(w, t, p[1], p[2]);
    } else if p[2] != p[3] {
      SimilarInjective(w, t, p[2], p[3]);
    }
  }

  /** _sort_stars chooses the same roles after a similarity with w != 0. */
  lemma SortIndicesSimilar(w: Point, t: Point, p: seq<Point>)
    requires |p| == 4 && w != Point(0.0, 0.0)
    ensures SortIndices(MapQuad(w, t, p)) == SortIndices(p)
  {
    ArgMaxSimilar(w, t, p);
  }

  lemma ArgMaxSimilar(w: Point, t: Point, p: seq<Point>)
    requires |p| == 4 && w != Point(0.0, 0.0)
    ensures ArgMax(DistMat(MapQuad(w, t, p))) == ArgMax(DistMat(p))
  {
    Norm2Pos(w);
    DistMatSimilar(w, t, p);
    ArgMaxScaled(DistMat(p), DistMat(MapQuad(w, t, p)), Norm2(w));
  }

  /**
   * The quad code is invariant under every similarity v -> w * v + t with
   * w != 0: rotating, scaling and shifting the four stars together does not
   * change their code.
   */
  lemma QuadCodeSimilar(w: Point, t: Point, p: seq<Point>)
    requires |p| == 4 && w != Point(0.0, 0.0)
    ensures GenerateQuadCode(MapQuad(w, t, p)) == GenerateQuadCode(p)
  {
    var p' := MapQuad(w, t, p);
    AllEqualSimilar(w, t, p);
    SortIndicesSimilar(w, t, p);
    if !AllEqual(p) {
      var q := SortIndices(p).value;
      NormalizeSimilar(w, t, p[q.a], p[q.b], p[q.c]);
      NormalizeSimilar(w, t, p[q.a], p[q.b], p[q.d]);
      assert RawCode(p'[q.a], p'[q.b], p'[q.c], p'[q.d]) == RawCode(p[q.a], p[q.b], p[q.c], p[q.d]);
    }
  }

  /** Shifting all four stars by the same vector leaves the code unchanged: only differences from A matter. */
  lemma QuadCodeTranslation(t: Point, p: seq<Point>)
    requires |p| == 4
    ensures GenerateQuadCode([Add(p[0], t), Add(p[1], t), Add(p[2], t), Add(p[3], t)]) == GenerateQuadCode(p)
  {
    var one := Point(1.0, 0.0);
    forall i | 0 <= i < 4
      ensures Similar(one, t, p[i]) == Add(p[i], t)
    {
    }
    assert MapQuad(one, t, p) == [Add(p[0], t), Add(p[1], t), Add(p[2], t), Add(p[3], t)];
    QuadCodeSimilar(one, t, p);
  }

  // ---------------------------------------------------------------------------
  // Invariance under relabelling the four stars
  // ---------------------------------------------------------------------------

  /** `perm` relabels the indices 0..3 and `inv` undoes it. */
  predicate IsPermutation(perm: seq<nat>, inv: seq<nat>)
  {
    && |perm| == 4 && |inv| == 4
    && (forall i :: 0 <= i < 4 ==> perm[i] < 4 && inv[perm[i]] == i)
    && (forall i :: 0 <= i < 4 ==> inv[i] < 4 && perm[inv[i]] == i)
  }

  /** The positions of `p` listed in the order `perm`. */
  function Permute(p: seq<Point>, perm: seq<nat>): (r: seq<Point>)
    requires |p| == 4 && |perm| == 4 && forall i :: 0 <= i < 4 ==> perm[i] < 4
    ensures |r| == 4 && forall i :: 0 <= i < 4 ==> r[i] == p[perm[i]]
  {
    seq(4, i requires 0 <= i < 4 => p[perm[i]])
  }

  /** The pair (a, b) is strictly farther apart than any other pair of positions. */
  predicate UniqueFarthest(p: seq<Point>, a: nat, b: nat)
    requires |p| == 4 && a < 4 && b < 4
  {
    forall i, j :: 0 <= i < j < 4 && (i != a || j != b) ==> Dist2(p[i], p[j]) < Dist2(p[a], p[b])
  }

  /** Every index other than A's and B's plays C or D. */
  lemma OtherRole(q: Roles, x: nat)
    requires IsRoles(q) && x < 4 && x != q.a && x != q.b
    ensures x == q.c || x == q.d
  {
  }

  /** Relabelling keeps two distinct positions distinct. */
  lemma PermutedNotAllEqual(p: seq<Point>, perm: seq<nat>, inv: seq<nat>)
    requires |p| == 4 && IsPermutation(perm, inv) && !AllEqual(p)
    ensures !AllEqual(Permute(p, perm))
  {
    var p' := Permute(p, perm);
    var x, y := DistinctPair(p);
    assert p'[inv[x]] == p[x] && p'[inv[y]] == p[y];
    if AllEqual(p') {
      AllEqualAt(p', inv[x], inv[y]);
      assert false;
    }
  }

  /** Two positions that differ, when not all four coincide. */
  lemma DistinctPair(p: seq<Point>) returns (x: nat, y: nat)
    requires |p| == 4 && !AllEqual(p)
    ensures x < 4 && y < 4 && p[x] != p[y]
  {
    if p[0] != p[1] {
      x, y := 0, 1;
    } else if p[1] != p[2] {
      x, y := 1, 2;
    } else {
      x, y := 2, 3;
    }
  }

  lemma AllEqualAt(p: seq<Point>, i: nat, j: nat)
    requires |p| == 4 && AllEqual(p) && i < 4 && j < 4
    ensures p[i] == p[j]
  {
  }

  /** After relabelling, _sort_stars picks the same unique farthest pair, in either order. */
  lemma FarthestPermuted(p: seq<Point>, perm: seq<nat>, inv: seq<nat>)
    requires |p| == 4 && IsPermutation(perm, inv) && !AllEqual(p)
    requires var q := SortIndices(p).value; UniqueFarthest(p, q.a, q.b)
    ensures !AllEqual(Permute(p, perm))
    ensures var q, r := SortIndices(p).value, SortIndices(Permute(p, perm)).value;
      (perm[r.a] == q.a && perm[r.b] == q.b) || (perm[r.a] == q.b && perm[r.b] == q.a)
  {
    var p' := Permute(p, perm);
    PermutedNotAllEqual(p, perm, inv);
    var q := SortIndices(p).value;
    var r := SortIndices(p').value;
    var u, v := perm[r.a], perm[r.b];
    MaximalAt(p', inv[q.a], inv[q.b]);
    assert Dist2(p[q.a], p[q.b]) <= Dist2(p[u], p[v]);
    assert u != v by {
      assert inv[u] == r.a && inv[v] == r.b;
    }
    if v < u {
      Dist2Sym(p[u], p[v]);
    }
  }

  /** Once A and B correspond, so do C and D, in either order. */
  lemma OthersPermuted(q: Roles, r: Roles, perm: seq<nat>, inv: seq<nat>)
    requires IsRoles(q) && IsRoles(r) && IsPermutation(perm, inv)
    requires (perm[r.a] == q.a && perm[r.b] == q.b) || (perm[r.a] == q.b && perm[r.b] == q.a)
    ensures (perm[r.c] == q.c && perm[r.d] == q.d) || (perm[r.c] == q.d && perm[r.d] == q.c)
  {
    var c', d' := perm[r.c], perm[r.d];
    assert c' != perm[r.a] && c' != perm[r.b] && d' != perm[r.a] && d' != perm[r.b] && c' != d' by {
      assert inv[c'] == r.c && inv[d'] == r.d && inv[perm[r.a]] == r.a && inv[perm[r.b]] == r.b;
    }
    OtherRole(q, c');
    OtherRole(q, d');
  }

  /**
   * Taking A, B in either order and C, D in either order gives raw codes that
   * rectify alike, off the lines c0 + c2 == 1 and c0 == c2.
   */
  lemma RectifyRelabelled(a: Point, b: Point, c: Point, d: Point, a': Point, b': Point, c': Point, d': Point)
    requires a != b
    requires (a' == a && b' == b) || (a' == b && b' == a)
    requires (c' == c && d' == d) || (c' == d && d' == c)
    requires var raw := RawCode(a, b, c, d); raw.c0 + raw.c2 != 1.0 && raw.c0 != raw.c2
    ensures Rectify(RawCode(a', b', c', d')) == Rectify(RawCode(a, b, c, d))
  {
    var raw := RawCode(a, b, c, d);
    if a' == a && c' == d && c != d {
      RawCodeSwapCD(a, b, c, d);
      RectifySwap(raw);
    } else if a' == b && c' == c {
      RawCodeSwapAB(a, b, c, d);
      RectifyReflect(raw);
    } else if a' == b && c' == d {
      RawCodeSwapAB(a, b, c, d);
      RawCodeSwapCD(b, a, c, d);
      RectifySwap(Reflect(raw));
      RectifyReflect(raw);
    }
  }

  /**
   * Relabelling the four stars does not change their code when the most
   * distant pair is unique and the raw code is off the two lines where
   * _rectify_code cannot tell a code from its reflection or its half-swap.
   */
  lemma QuadCodePermutation(p: seq<Point>, perm: seq<nat>, inv: seq<nat>)
    requires |p| == 4 && IsPermutation(perm, inv) && !AllEqual(p)
    requires var q := SortIndices(p).value; UniqueFarthest(p, q.a, q.b)
    requires var q := SortIndices(p).value;
      var raw := RawCode(p[q.a], p[q.b], p[q.c], p[q.d]);
      raw.c0 + raw.c2 != 1.0 && raw.c0 != raw.c2
    ensures GenerateQuadCode(Permute(p, perm)) == GenerateQuadCode(p)
  {
    var p' := Permute(p, perm);
    FarthestPermuted(p, perm, inv);
    var q, r := SortIndices(p).value, SortIndices(p').value;
    OthersPermuted(q, r, perm, inv);
    assert p'[r.a] == p[perm[r.a]] && p'[r.b] == p[perm[r.b]];
    assert p'[r.c] == p[perm[r.c]] && p'[r.d] == p[perm[r.d]];
    RectifyRelabelled(p[q.a], p[q.b], p[q.c], p[q.d], p'[r.a], p'[r.b], p'[r.c], p'[r.d]);
    QuadCodeOfRoles(p);
    QuadCodeOfRoles(p');
  }
}

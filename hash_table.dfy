/**
 * The table of reference hash records: five parallel columns of one
 * capacity (codes, origins, rotation angles, scales and the four star ids)
 * and a cursor `ptr` counting the rows written so far.  Only rows below the
 * cursor are contents; the rows above it are spare capacity.
 */
module HashTables {
  import opened Hashing

  /** The catalog ids of the stars A, B, C and D of a record. */
  datatype Quad = Quad(a: int, b: int, c: int, d: int)

  /** One record: one row of each of the five columns. */
  datatype Row = Row(code: Code, origin: Point, alpha: real, scale: real, idc: Quad)

  /** A row of a freshly allocated table: numpy's zeros. */
  const ZeroRow: Row := Row(Code(0.0, 0.0, 0.0, 0.0), Point(0.0, 0.0), 0.0, 0.0, Quad(0, 0, 0, 0))

  /** A fresh array holding `s` followed by `t`: numpy's vstack / concatenate of two slices. */
  method Stack<T>(s: seq<T>, t: seq<T>) returns (a: array<T>)
    ensures fresh(a) && a[..] == s + t
  {
    var st := s + t;
    a := new T[|st|](k requires 0 <= k < |st| => st[k]);
  }

  /** Five columns of one length read row by row. */
  function Rows(cs: seq<Code>, os: seq<Point>, ns: seq<real>, ss: seq<real>, qs: seq<Quad>): (rows: seq<Row>)
    requires |os| == |cs| && |ns| == |cs| && |ss| == |cs| && |qs| == |cs|
    ensures |rows| == |cs|
  {
    seq(|cs|, k requires 0 <= k < |cs| => Row(cs[k], os[k], ns[k], ss[k], qs[k]))
  }

  /** Stacking columns concatenates their rows. */
  lemma RowsStacked(cs: seq<Code>, os: seq<Point>, ns: seq<real>, ss: seq<real>, qs: seq<Quad>,
                    cs': seq<Code>, os': seq<Point>, ns': seq<real>, ss': seq<real>, qs': seq<Quad>)
    requires |os| == |cs| && |ns| == |cs| && |ss| == |cs| && |qs| == |cs|
    requires |os'| == |cs'| && |ns'| == |cs'| && |ss'| == |cs'| && |qs'| == |cs'|
    ensures Rows(cs + cs', os + os', ns + ns', ss + ss', qs + qs') == Rows(cs, os, ns, ss, qs) + Rows(cs', os', ns', ss', qs')
  {
  }

  class HashTable {
    var codes: array<Code>
    var origin: array<Point>
    var alpha: array<real>
    var scale: array<real>
    var idc: array<Quad>
    var ptr: nat

    /** The five columns have one length, the capacity, and the cursor does not pass it. */
    predicate Valid()
      reads this
    {
      && origin.Length == codes.Length && alpha.Length == codes.Length
      && scale.Length == codes.Length && idc.Length == codes.Length
      && alpha != scale
      && ptr <= codes.Length
    }

    /** The number of rows allocated: `len(self.codes)`. */
    function Capacity(): nat
      reads this
    {
      codes.Length
    }

    /** Row k of the five columns. */
    function RowAt(k: nat): Row
      reads this, codes, origin, alpha, scale, idc
      requires Valid() && k < Capacity()
    {
      Row(codes[k], origin[k], alpha[k], scale[k], idc[k])
    }

    /** The logical contents: the rows below the cursor, in order. */
    function Contents(): (rows: seq<Row>)
      reads this, codes, origin, alpha, scale, idc
      requires Valid()
      ensures |rows| == ptr
    {
      Rows(codes[..ptr], origin[..ptr], alpha[..ptr], scale[..ptr], idc[..ptr])
    }

    /** HashTable(length): five zero-filled columns of capacity `length`, cursor 0. */
    constructor (length: nat)
      ensures Valid() && fresh(codes) && fresh(origin) && fresh(alpha) && fresh(scale) && fresh(idc)
      ensures Capacity() == length && ptr == 0 && Contents() == []
      ensures forall k :: 0 <= k < length ==> RowAt(k) == ZeroRow
    {
      codes := new Code[length](_ => Code(0.0, 0.0, 0.0, 0.0));
      origin := new Point[length](_ => Point(0.0, 0.0));
      alpha := new real[length](_ => 0.0);
      scale := new real[length](_ => 0.0);
      idc := new Quad[length](_ => Quad(0, 0, 0, 0));
      ptr := 0;
    }

    /**
     * add_row: writes row `ptr` of every column and advances the cursor.
     * With the cursor at the capacity the write itself fails (an IndexError),
     * so the RuntimeError after the increment can never be raised; the model
     * asks for room instead.
     */
    method AddRow(c: Code, o: Point, angle: real, s: real, ids: Quad)
      requires Valid() && ptr < Capacity()
      modifies this`ptr, codes, origin, alpha, scale, idc
      ensures Valid()
      ensures codes == old(codes) && origin == old(origin) && alpha == old(alpha)
      ensures scale == old(scale) && idc == old(idc)
      ensures ptr == old(ptr) + 1
      ensures Contents() == old(Contents()) + [Row(c, o, angle, s, ids)]
      ensures forall k :: ptr <= k < Capacity() ==> RowAt(k) == old(RowAt(k))
    {
      codes[ptr] := c;
      origin[ptr] := o;
      alpha[ptr] := angle;
      scale[ptr] := s;
      idc[ptr] := ids;
      ptr := ptr + 1;
    }

    /** Makes the five arrays the columns of a full table. */
    method Install(cs: array<Code>, os: array<Point>, ns: array<real>, ss: array<real>, qs: array<Quad>)
      requires os.Length == cs.Length && ns.Length == cs.Length && ss.Length == cs.Length && qs.Length == cs.Length
      requires ns != ss
      modifies this
      ensures Valid() && codes == cs && origin == os && alpha == ns && scale == ss && idc == qs
      ensures ptr == Capacity() && Contents() == Rows(cs[..], os[..], ns[..], ss[..], qs[..])
    {
      codes, origin, alpha, scale, idc, ptr := cs, os, ns, ss, qs, cs.Length;
      assert codes[..ptr] == cs[..] && origin[..ptr] == os[..] && alpha[..ptr] == ns[..];
      assert scale[..ptr] == ss[..] && idc[..ptr] == qs[..];
    }

    /**
     * append: every column becomes its own contents followed by those of
     * `other`, so the spare capacity of both tables is dropped.  The
     * argument, which may be this table itself, is not changed.
     */
    method Append(other: HashTable)
      requires Valid() && other.Valid()
      modifies this
      ensures Valid()
      ensures fresh(codes) && fresh(origin) && fresh(alpha) && fresh(scale) && fresh(idc)
      ensures Contents() == old(Contents()) + old(other.Contents())
      ensures ptr == old(ptr) + old(other.ptr) && Capacity() == ptr
      ensures other != this ==> other.ptr == old(other.ptr) && other.Contents() == old(other.Contents())
    {
      var n, m := ptr, other.ptr;
      ghost var mine, theirs := Contents(), other.Contents();
      var cs := Stack(codes[..n], other.codes[..m]);
      var os := Stack(origin[..n], other.origin[..m]);
      var ns := Stack(alpha[..n], other.alpha[..m]);
      var ss := Stack(scale[..n], other.scale[..m]);
      var qs := Stack(idc[..n], other.idc[..m]);
      RowsStacked(codes[..n], origin[..n], alpha[..n], scale[..n], idc[..n],
                  other.codes[..m], other.origin[..m], other.alpha[..m], other.scale[..m], other.idc[..m]);
      assert Rows(cs[..], os[..], ns[..], ss[..], qs[..]) == mine + theirs;
      Install(cs, os, ns, ss, qs);
    }
  }
}

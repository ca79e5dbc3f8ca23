/**
 * Well-known binary and well-known text of polygons, as clauses 8 and 7 of OGC 06-103r4 lay them
 * out and src/polygon.hpp, src/polygon.cpp and src/serialization.hpp write them, in little-endian
 * byte order.
 */
module Wkb {
  import opened Requests
  import opened NumberLexeme

  const UINT32_SIZE := 4
  const DOUBLE_SIZE := 8
  const WKB_HEADER_SIZE := 5
  const WKB_POLYGON_HEADER_SIZE := 9
  const UINT32_RANGE := 0x1_0000_0000

  /** A double is its eight bytes in memory. */
  type Double = d: seq<Byte> | |d| == 8 witness [0, 0, 0, 0, 0, 0, 0, 0]

  datatype Point = Point(x: Double, y: Double)

  type Ring = seq<Point>

  // ---------- numbers ----------

  /** The four bytes of a cass_uint32_t; larger numbers wrap around. */
  function Uint32(n: nat): (b: seq<Byte>)
    ensures |b| == UINT32_SIZE
  {
    [n % 256, n / 256 % 256, n / 65536 % 256, n / 16777216 % 256]
  }

  function DecodeUint32(b: seq<Byte>, at: nat): (n: nat)
    requires at + UINT32_SIZE <= |b|
    ensures n < UINT32_RANGE
  {
    b[at] as int + 256 * (b[at + 1] as int) + 65536 * (b[at + 2] as int) + 16777216 * (b[at + 3] as int)
  }

  lemma Uint32RoundTrip(n: nat)
    ensures DecodeUint32(Uint32(n), 0) == n % UINT32_RANGE
  {
    var a, b, c, d := n % 256, n / 256 % 256, n / 65536 % 256, n / 16777216 % 256;
    var r := a + 256 * b + 65536 * c + 16777216 * d;
    assert n == a + 256 * (n / 256);
    assert n / 256 == b + 256 * (n / 65536) by { assert n / 256 / 256 == n / 65536; }
    assert n / 65536 == c + 256 * (n / 16777216) by { assert n / 65536 / 256 == n / 16777216; }
    assert n / 16777216 == d + 256 * (n / UINT32_RANGE) by { assert n / 16777216 / 256 == n / UINT32_RANGE; }
    assert n == r + UINT32_RANGE * (n / UINT32_RANGE);
  }

  /** Reading a number that was written at this place. */
  lemma DecodeAt(b: seq<Byte>, at: nat, n: nat)
    requires at + UINT32_SIZE <= |b| && b[at..at + UINT32_SIZE] == Uint32(n)
    ensures DecodeUint32(b, at) == n % UINT32_RANGE
  {
    var w := b[at..at + UINT32_SIZE];
    assert w[0] == b[at] && w[1] == b[at + 1] && w[2] == b[at + 2] && w[3] == b[at + 3];
    assert DecodeUint32(w, 0) == DecodeUint32(b, at);
    Uint32RoundTrip(n);
  }

  lemma DecodeSmallAt(b: seq<Byte>, at: nat, n: nat)
    requires at + UINT32_SIZE <= |b| && b[at..at + UINT32_SIZE] == Uint32(n) && n < UINT32_RANGE
    ensures DecodeUint32(b, at) == n
  {
    DecodeAt(b, at, n);
  }

  // ---------- well-known binary ----------

  function PointBytes(p: Point): (b: seq<Byte>)
    ensures |b| == 16
  {
    p.x + p.y
  }

  function PointsBytes(ps: seq<Point>): (b: seq<Byte>)
    ensures |b| == 16 * |ps|
  {
    if ps == [] then [] else PointBytes(ps[0]) + PointsBytes(ps[1..])
  }

  function RingBytes(r: Ring): seq<Byte> { Uint32(|r|) + PointsBytes(r) }

  function RingsBytes(rs: seq<Ring>): seq<Byte> {
    if rs == [] then [] else RingBytes(rs[0]) + RingsBytes(rs[1..])
  }

  function PolygonHeader(): (b: seq<Byte>)
    ensures |b| == WKB_HEADER_SIZE
  {
    [1] + Uint32(3)
  }

  function PolygonBytes(rs: seq<Ring>): seq<Byte> {
    PolygonHeader() + Uint32(|rs|) + RingsBytes(rs)
  }

  lemma {:induction false} PointsBytesConcat(a: seq<Point>, b: seq<Point>)
    ensures PointsBytes(a + b) == PointsBytes(a) + PointsBytes(b)
  {
    if a == [] {
      assert a + b == b;
    } else {
      calc {
        PointsBytes(a + b);
        { assert (a + b)[1..] == a[1..] + b; }
        PointBytes(a[0]) + PointsBytes(a[1..] + b);
        { PointsBytesConcat(a[1..], b); }
        PointBytes(a[0]) + (PointsBytes(a[1..]) + PointsBytes(b));
        PointsBytes(a) + PointsBytes(b);
      }
    }
  }

  lemma PointsBytesAppend(ps: seq<Point>, p: Point)
    ensures PointsBytes(ps + [p]) == PointsBytes(ps) + PointBytes(p)
  {
    PointsBytesConcat(ps, [p]);
    assert PointsBytes([p]) == PointBytes(p);
  }

  lemma {:induction false} RingsBytesConcat(a: seq<Ring>, b: seq<Ring>)
    ensures RingsBytes(a + b) == RingsBytes(a) + RingsBytes(b)
  {
    if a == [] {
      assert a + b == b;
    } else {
      calc {
        RingsBytes(a + b);
        { assert (a + b)[1..] == a[1..] + b; }
        RingBytes(a[0]) + RingsBytes(a[1..] + b);
        { RingsBytesConcat(a[1..], b); }
        RingBytes(a[0]) + (RingsBytes(a[1..]) + RingsBytes(b));
        RingsBytes(a) + RingsBytes(b);
      }
    }
  }

  lemma RingsBytesAppend(rs: seq<Ring>, r: Ring)
    ensures RingsBytes(rs + [r]) == RingsBytes(rs) + RingBytes(r)
  {
    RingsBytesConcat(rs, [r]);
    assert RingsBytes([r]) == RingBytes(r);
  }

  // ---------- well-known text ----------

  /**
   * The stream formatter at 17 digits and atof. `finite` are the doubles that it writes as numbers;
   * infinities and NaNs are not among them.
   */
  datatype Codec = Codec(format: Double -> string, atof: string -> Double, finite: Double -> bool) {
    ghost predicate Valid() {
      forall d: Double :: finite(d) ==> IsNumber(format(d)) && atof(format(d)) == d
    }
    ghost predicate Finite(p: Point) { finite(p.x) && finite(p.y) }
    ghost predicate AllFinite(ps: seq<Point>) { forall i :: 0 <= i < |ps| ==> Finite(ps[i]) }
    ghost predicate FiniteRings(rs: seq<Ring>) { forall i :: 0 <= i < |rs| ==> AllFinite(rs[i]) }

    function PointText(p: Point): string { format(p.x) + " " + format(p.y) }

    function PointsText(ps: seq<Point>): string {
      if ps == [] then ""
      else if |ps| == 1 then PointText(ps[0])
      else PointText(ps[0]) + ", " + PointsText(ps[1..])
    }

    function RingText(r: Ring): string { "(" + PointsText(r) + ")" }

    function RingsText(rs: seq<Ring>): string {
      if rs == [] then ""
      else if |rs| == 1 then RingText(rs[0])
      else RingText(rs[0]) + ", " + RingsText(rs[1..])
    }

    function PolygonText(rs: seq<Ring>): string {
      if rs == [] then "POLYGON EMPTY" else "POLYGON (" + RingsText(rs) + ")"
    }
  }
}

/**
 * The two formats of a polygon, place by place. The bytes are as clause 8 of OGC 06-103r4 lays them
 * out: the byte order, the code of the geometry, the number of rings, and for every ring the number of
 * its points and their coordinates (src/polygon.hpp:29-80, src/serialization.hpp:42-130). The text is
 * the one of clause 7 (src/polygon.cpp:91-120).
 */
module PolygonFormats {
  import opened Requests
  import opened Wkb

  /** Bytes read as one number, the least significant byte first. */
  function LittleEndian(b: seq<Byte>): nat {
    if b == [] then 0 else b[0] as int + 256 * LittleEndian(b[1..])
  }

  lemma LittleEndianOfFour(b: seq<Byte>)
    requires |b| == 4
    ensures LittleEndian(b) == b[0] as int + 256 * (b[1] as int) + 65536 * (b[2] as int) + 16777216 * (b[3] as int)
  {
    assert b[1..][1..] == b[2..] && b[2..][1..] == b[3..] && b[3..][1..] == [];
    assert LittleEndian(b[3..]) == b[3] as int;
    assert LittleEndian(b[2..]) == b[2] as int + 256 * LittleEndian(b[3..]);
    assert LittleEndian(b[1..]) == b[1] as int + 256 * LittleEndian(b[2..]);
  }

  /** A number is written with its least significant byte first, modulo 2^32. */
  lemma Uint32IsLittleEndian(n: nat)
    ensures LittleEndian(Uint32(n)) == n % 0x1_0000_0000
  {
    LittleEndianOfFour(Uint32(n));
    Uint32RoundTrip(n);
  }

  lemma DecodeIsLittleEndian(b: seq<Byte>, at: nat)
    requires at + 4 <= |b|
    ensures DecodeUint32(b, at) == LittleEndian(b[at..at + 4])
  {
    LittleEndianOfFour(b[at..at + 4]);
  }

  /** The coordinates of a point: eight bytes for x and then eight for y. */
  lemma {:induction false} PointPlace(ps: seq<Point>, j: nat)
    requires j < |ps|
    ensures PointsBytes(ps)[16 * j..16 * j + 8] == ps[j].x && PointsBytes(ps)[16 * j + 8..16 * j + 16] == ps[j].y
    decreases |ps|
  {
    if j > 0 {
      PointPlace(ps[1..], j - 1);
      Behind(PointBytes(ps[0]), PointsBytes(ps[1..]), 16 * (j - 1), 8);
      Behind(PointBytes(ps[0]), PointsBytes(ps[1..]), 16 * (j - 1) + 8, 8);
    }
  }

  lemma Behind(a: seq<Byte>, b: seq<Byte>, i: nat, n: nat)
    requires i + n <= |b|
    ensures (a + b)[|a| + i..|a| + i + n] == b[i..i + n]
  {
  }

  /** From place i on there are the number of the points of a ring, its points, and the rest. */
  ghost predicate RingAt(all: seq<Byte>, i: nat, r: Ring, rest: seq<Byte>) {
    && i + 4 + 16 * |r| <= |all|
    && LittleEndian(all[i..i + 4]) == |r|
    && all[i + 4..i + 4 + 16 * |r|] == PointsBytes(r)
    && all[i + 4 + 16 * |r|..] == rest
  }

  lemma RingPlaced(all: seq<Byte>, a: seq<Byte>, r: Ring, c: seq<Byte>)
    requires |r| < 0x1_0000_0000 && all == a + RingBytes(r) + c
    ensures all[..|a|] == a && RingAt(all, |a|, r, c)
  {
    Uint32IsLittleEndian(|r|);
    Slices(all, a, Uint32(|r|), PointsBytes(r), c);
  }

  lemma Slices(all: seq<Byte>, a: seq<Byte>, count: seq<Byte>, points: seq<Byte>, c: seq<Byte>)
    requires |count| == 4 && all == a + (count + points) + c
    ensures all[..|a|] == a && all[|a|..|a| + 4] == count
    ensures all[|a| + 4..|a| + 4 + |points|] == points && all[|a| + 4 + |points|..] == c
  {
  }

  /** The rings follow each other, each as the number of its points and their coordinates. */
  lemma RingsInOrder(before: seq<Ring>, r: Ring, after: seq<Ring>, all: seq<Byte>)
    requires |r| < 0x1_0000_0000 && all == RingsBytes(before + [r] + after)
    ensures RingsBytes(before) <= all && RingAt(all, |RingsBytes(before)|, r, RingsBytes(after))
  {
    RingsBytesConcat(before + [r], after);
    RingsBytesAppend(before, r);
    RingPlaced(all, RingsBytes(before), r, RingsBytes(after));
  }

  /** A polygon starts with the byte 1 for this byte order, the code 3 and the number of its rings. */
  lemma PolygonStarts(rs: seq<Ring>)
    requires |rs| < 0x1_0000_0000
    ensures |PolygonBytes(rs)| >= 9
    ensures PolygonBytes(rs)[..5] == [1, 3, 0, 0, 0]
    ensures LittleEndian(PolygonBytes(rs)[5..9]) == |rs|
    ensures PolygonBytes(rs)[9..] == RingsBytes(rs)
  {
    assert Uint32(3) == [3, 0, 0, 0];
    Uint32IsLittleEndian(|rs|);
    assert PolygonBytes(rs)[5..9] == Uint32(|rs|);
  }

  // ---------- text ----------

  /** The points of a ring are separated by a comma and a blank. */
  lemma {:induction false} PointsTextJoins(c: Codec, a: seq<Point>, b: seq<Point>)
    requires a != [] && b != []
    ensures c.PointsText(a + b) == c.PointsText(a) + ", " + c.PointsText(b)
    decreases |a|
  {
    assert (a + b)[1..] == a[1..] + b;
    if |a| > 1 {
      PointsTextJoins(c, a[1..], b);
    } else {
      assert a[1..] + b == b;
    }
  }

  lemma {:induction false} RingsTextJoins(c: Codec, a: seq<Ring>, b: seq<Ring>)
    requires a != [] && b != []
    ensures c.RingsText(a + b) == c.RingsText(a) + ", " + c.RingsText(b)
    decreases |a|
  {
    assert (a + b)[1..] == a[1..] + b;
    if |a| > 1 {
      RingsTextJoins(c, a[1..], b);
    } else {
      assert a[1..] + b == b;
    }
  }

  /** The text without rings, and with two rings, of two points and of one. */
  lemma PolygonTextReads(c: Codec, p: Point, q: Point, r: Point)
    ensures c.PolygonText([]) == "POLYGON EMPTY"
    ensures var x, y := c.format(p.x) + " " + c.format(p.y), c.format(q.x) + " " + c.format(q.y);
            var z := c.format(r.x) + " " + c.format(r.y);
            c.PolygonText([[p, q], [r]])
            == "POLYGON (" + ("(" + (x + ", " + y) + ")" + ", " + ("(" + z + ")")) + ")"
  {
    PointsTextJoins(c, [p], [q]);
    assert [p] + [q] == [p, q];
    RingsTextJoins(c, [[p, q]], [[r]]);
    assert [[p, q]] + [[r]] == [[p, q], [r]];
  }
}

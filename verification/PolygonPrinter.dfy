/** Polygon::to_wkt: the WKT of the bytes that the builder holds (src/polygon.cpp:91-118). */
module PolygonPrinter {
  import opened Options
  import opened Requests
  import opened Wkb
  import opened PolygonLayout
  import opened PolygonBuilder

  // ---------- slices ----------

  lemma SubSlice(b: seq<Byte>, pos: nat, w: seq<Byte>, i: nat, j: nat)
    requires i <= j <= |w| && pos + |w| <= |b| && b[pos..pos + |w|] == w
    ensures b[pos + i..pos + j] == w[i..j]
  {
    forall k | i <= k < j
      ensures b[pos + k] == w[k]
    {
      assert b[pos..pos + |w|][k] == b[pos + k];
    }
  }

  lemma MiddleSlice(b: seq<Byte>, at: nat, x: seq<Byte>, m: seq<Byte>, y: seq<Byte>)
    requires at <= |b| && x + m + y <= b[at..]
    ensures at + |x| + |m| <= |b| && b[at + |x|..at + |x| + |m|] == m
  {
    var w := x + m + y;
    assert b[at..at + |w|] == w;
    SubSlice(b, at, w, |x|, |x| + |m|);
    assert w[|x|..|x| + |m|] == m;
  }

  // ---------- where rings and points lie in the bytes ----------

  lemma {:induction false} PointAt(ps: seq<Point>, j: nat)
    requires j < |ps|
    ensures PointsBytes(ps)[16 * j..16 * j + 8] == ps[j].x
    ensures PointsBytes(ps)[16 * j + 8..16 * j + 16] == ps[j].y
  {
    var b := PointsBytes(ps);
    if j > 0 {
      PointAt(ps[1..], j - 1);
      var c := PointsBytes(ps[1..]);
      assert b == PointBytes(ps[0]) + c;
      assert b[16 * j..16 * j + 8] == c[16 * (j - 1)..16 * (j - 1) + 8];
      assert b[16 * j + 8..16 * j + 16] == c[16 * (j - 1) + 8..16 * (j - 1) + 16];
    }
  }

  lemma RingAt(rs: seq<Ring>, i: nat)
    requires i < |rs|
    ensures RingsBytes(rs) == RingsBytes(rs[..i]) + RingBytes(rs[i]) + RingsBytes(rs[i + 1..])
  {
    assert rs == rs[..i] + rs[i..];
    RingsBytesConcat(rs[..i], rs[i..]);
    assert rs[i..][1..] == rs[i + 1..];
    var x, y, z := RingsBytes(rs[..i]), RingBytes(rs[i]), RingsBytes(rs[i + 1..]);
    assert RingsBytes(rs[i..]) == y + z;
    Associate(x, y, z);
  }

  // ---------- text grows at its end ----------

  lemma {:induction false} PointsTextAppend(codec: Codec, ps: seq<Point>, p: Point)
    requires ps != []
    ensures codec.PointsText(ps + [p]) == codec.PointsText(ps) + ", " + codec.PointText(p)
  {
    var all := ps + [p];
    assert all[1..] == ps[1..] + [p];
    if |ps| == 1 {
      assert all[1..] == [p];
      assert codec.PointsText(all) == codec.PointText(ps[0]) + ", " + codec.PointsText(all[1..]);
    } else {
      PointsTextAppend(codec, ps[1..], p);
      calc {
        codec.PointsText(all);
        codec.PointText(ps[0]) + ", " + (codec.PointsText(ps[1..]) + ", " + codec.PointText(p));
        codec.PointText(ps[0]) + ", " + codec.PointsText(ps[1..]) + ", " + codec.PointText(p);
      }
    }
  }

  lemma {:induction false} RingsTextAppend(codec: Codec, rs: seq<Ring>, r: Ring)
    requires rs != []
    ensures codec.RingsText(rs + [r]) == codec.RingsText(rs) + ", " + codec.RingText(r)
  {
    var all := rs + [r];
    assert all[1..] == rs[1..] + [r];
    if |rs| == 1 {
      assert all[1..] == [r];
      assert codec.RingsText(all) == codec.RingText(rs[0]) + ", " + codec.RingsText(all[1..]);
    } else {
      RingsTextAppend(codec, rs[1..], r);
      calc {
        codec.RingsText(all);
        codec.RingText(rs[0]) + ", " + (codec.RingsText(rs[1..]) + ", " + codec.RingText(r));
        codec.RingText(rs[0]) + ", " + codec.RingsText(rs[1..]) + ", " + codec.RingText(r);
      }
    }
  }

  // ---------- the printer ----------

  /** The points of one ring, from pos on. */
  method PrintPoints(codec: Codec, bytes: seq<Byte>, pos: nat, n: nat, ghost ps: seq<Point>) returns (text: string)
    requires |ps| == n && pos + 16 * n <= |bytes| && bytes[pos..pos + 16 * n] == PointsBytes(ps)
    ensures text == codec.PointsText(ps)
  {
    text := "";
    var at := pos;
    for j := 0 to n
      invariant at == pos + 16 * j
      invariant text == codec.PointsText(ps[..j])
    {
      PointAt(ps, j);
      SubSlice(bytes, pos, PointsBytes(ps), 16 * j, 16 * j + 8);
      SubSlice(bytes, pos, PointsBytes(ps), 16 * j + 8, 16 * j + 16);
      assert ps[..j + 1] == ps[..j] + [ps[j]];
      if j > 0 {
        PointsTextAppend(codec, ps[..j], ps[j]);
        text := text + ", ";
      }
      text := text + (codec.format(bytes[at..at + 8]) + " " + codec.format(bytes[at + 8..at + 16]));
      at := at + 2 * DOUBLE_SIZE;
    }
    assert ps[..n] == ps;
  }

  /** What the printer sees: a ring that is still open has the count zero. */
  ghost function Shown(closed: seq<Ring>, open: Option<Ring>): seq<Ring> {
    if open.Some? then closed + [[]] else closed
  }

  /** The rings that lie after the header, up to some bytes that belong to no ring. */
  ghost predicate Holds(bytes: seq<Byte>, rs: seq<Ring>) {
    |bytes| >= WKB_POLYGON_HEADER_SIZE && RingsBytes(rs) <= bytes[WKB_POLYGON_HEADER_SIZE..]
  }

  lemma LayoutHolds(counter: seq<Byte>, closed: seq<Ring>, open: Option<Ring>)
    requires |counter| == UINT32_SIZE
    ensures Holds(Layout(counter, closed, open), Shown(closed, open))
  {
    var b := Layout(counter, closed, open);
    Associate(PolygonHeader() + counter, RingsBytes(closed), OpenBytes(open));
    assert b[WKB_POLYGON_HEADER_SIZE..] == RingsBytes(closed) + OpenBytes(open);
    if open.Some? {
      RingsBytesAppend(closed, []);
      assert RingBytes([]) == Uint32(0);
      Associate(RingsBytes(closed), Uint32(0), PointsBytes(open.value));
    }
  }

  /** Ring i of the bytes: its counter and its points. */
  lemma RingInBytes(bytes: seq<Byte>, rs: seq<Ring>, i: nat)
    requires Holds(bytes, rs) && i < |rs| && Countable(rs)
    ensures var pos := WKB_POLYGON_HEADER_SIZE + |RingsBytes(rs[..i])|;
            var n := |rs[i]|;
            && pos + UINT32_SIZE + 16 * n <= |bytes|
            && DecodeUint32(bytes, pos) == n
            && bytes[pos + UINT32_SIZE..pos + UINT32_SIZE + 16 * n] == PointsBytes(rs[i])
            && |RingsBytes(rs[..i + 1])| == |RingsBytes(rs[..i])| + UINT32_SIZE + 16 * n
  {
    var pos := WKB_POLYGON_HEADER_SIZE + |RingsBytes(rs[..i])|;
    RingAt(rs, i);
    MiddleSlice(bytes, WKB_POLYGON_HEADER_SIZE, RingsBytes(rs[..i]), RingBytes(rs[i]), RingsBytes(rs[i + 1..]));
    RingFields(bytes, pos, rs[i]);
    assert rs[..i + 1] == rs[..i] + [rs[i]];
    RingsBytesAppend(rs[..i], rs[i]);
  }

  lemma RingFields(bytes: seq<Byte>, pos: nat, r: Ring)
    requires pos + |RingBytes(r)| <= |bytes| && bytes[pos..pos + |RingBytes(r)|] == RingBytes(r)
    requires |r| < UINT32_RANGE
    ensures DecodeUint32(bytes, pos) == |r|
    ensures bytes[pos + UINT32_SIZE..pos + UINT32_SIZE + 16 * |r|] == PointsBytes(r)
  {
    var count, points := Uint32(|r|), PointsBytes(r);
    TwoSlices(bytes, pos, count, points);
    DecodeSmallAt(bytes, pos, |r|);
  }

  lemma TwoSlices(b: seq<Byte>, pos: nat, x: seq<Byte>, y: seq<Byte>)
    requires pos + |x + y| <= |b| && b[pos..pos + |x + y|] == x + y
    ensures b[pos..pos + |x|] == x && b[pos + |x|..pos + |x| + |y|] == y
  {
    SubSlice(b, pos, x + y, 0, |x|);
    SubSlice(b, pos, x + y, |x|, |x| + |y|);
    assert (x + y)[0..|x|] == x;
    assert (x + y)[|x|..|x| + |y|] == y;
  }

  method PrintRings(codec: Codec, bytes: seq<Byte>, numRings: nat, ghost rs: seq<Ring>) returns (text: string)
    requires Holds(bytes, rs) && numRings == |rs| && Countable(rs)
    ensures text == codec.RingsText(rs)
  {
    text := "";
    var pos := WKB_POLYGON_HEADER_SIZE;
    for i := 0 to numRings
      invariant pos == WKB_POLYGON_HEADER_SIZE + |RingsBytes(rs[..i])|
      invariant text == codec.RingsText(rs[..i])
    {
      RingInBytes(bytes, rs, i);
      assert rs[..i + 1] == rs[..i] + [rs[i]];
      if i > 0 {
        RingsTextAppend(codec, rs[..i], rs[i]);
        text := text + ", ";
      }
      var n := DecodeUint32(bytes, pos);
      pos := pos + UINT32_SIZE;
      var points := PrintPoints(codec, bytes, pos, n, rs[i]);
      text := text + ("(" + points + ")");
      pos := pos + 16 * n;
    }
    assert rs[..numRings] == rs;
  }

  /** to_wkt; an open ring is shown without its points, because its counter is not patched yet. */
  method ToWkt(polygon: Polygon, codec: Codec) returns (text: string)
    requires polygon.Valid() && Countable(polygon.Rings())
    ensures text == codec.PolygonText(Shown(polygon.closed, polygon.open))
  {
    if polygon.numRings == 0 {
      return "POLYGON EMPTY";
    }
    LayoutHolds(polygon.counter, polygon.closed, polygon.open);
    assert |Shown(polygon.closed, polygon.open)| == |polygon.Rings()| == polygon.numRings;
    assert forall i :: 0 <= i < |polygon.closed| ==> polygon.closed[i] == polygon.Rings()[i];
    var rings := PrintRings(codec, polygon.bytes, polygon.numRings, Shown(polygon.closed, polygon.open));
    text := "POLYGON (" + rings + ")";
  }
}

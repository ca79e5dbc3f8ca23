/**
 * Which polygons pass the size check of reset_binary (src/polygon.cpp:148-163), in terms of their
 * rings. The check does not move over the points, so the counts after the first one are words of the
 * first ring's coordinates.
 */
module PolygonSizes {
  import opened Requests
  import opened Wkb
  import opened PolygonLayout
  import opened PolygonBinary

  /** The k-th 32-bit word of the coordinates. */
  function PointWord(ps: seq<Point>, k: nat): nat
    requires k < 4 * |ps|
  {
    DecodeUint32(PointsBytes(ps), UINT32_SIZE * k)
  }

  /** The coordinates that the first n words claim, each doubled in 32 bits. */
  function Claimed(ps: seq<Point>, n: nat): nat
    requires n <= 4 * |ps|
  {
    if n == 0 then 0 else Claimed(ps, n - 1) + 2 * PointWord(ps, n - 1) % UINT32_RANGE
  }

  function TotalPoints(rs: seq<Ring>): nat {
    if rs == [] then 0 else |rs[0]| + TotalPoints(rs[1..])
  }

  lemma {:induction false} RingsSize(rs: seq<Ring>)
    ensures |RingsBytes(rs)| == UINT32_SIZE * |rs| + 16 * TotalPoints(rs)
    decreases |rs|
  {
    if rs != [] {
      RingsSize(rs[1..]);
    }
  }

  lemma SameWord(b: seq<Byte>, at: nat, c: seq<Byte>, i: nat, place: nat)
    requires at + |c| <= |b| && b[at..at + |c|] == c && i + UINT32_SIZE <= |c| && place == at + i
    ensures DecodeUint32(b, place) == DecodeUint32(c, i)
  {
    assert forall j :: 0 <= j < |c| ==> c[j] == b[at + j];
  }

  /** The coordinates of the first ring stand where the second count is read. */
  ghost predicate FirstPoints(b: seq<Byte>, points: seq<Byte>) {
    var at := WKB_POLYGON_HEADER_SIZE + UINT32_SIZE;
    at + |points| <= |b| && b[at..at + |points|] == points
  }

  lemma FirstCount(b: seq<Byte>, rs: seq<Ring>)
    requires rs != [] && Countable(rs)
    requires WKB_POLYGON_HEADER_SIZE <= |b| && b[WKB_POLYGON_HEADER_SIZE..] == RingsBytes(rs)
    ensures Word(b, 0) == |rs[0]| && FirstPoints(b, PointsBytes(rs[0]))
  {
    NextRingBytes(b, WKB_POLYGON_HEADER_SIZE, rs);
    DropPrefix(b, WKB_POLYGON_HEADER_SIZE + UINT32_SIZE, PointsBytes(rs[0]), RingsBytes(rs[1..]));
  }

  lemma LaterWord(b: seq<Byte>, points: seq<Byte>, k: nat, next: nat, i: nat)
    requires FirstPoints(b, points) && next == k + 1 && i == UINT32_SIZE * k && i + UINT32_SIZE <= |points|
    ensures Word(b, next) == DecodeUint32(points, i)
  {
    var at, place := WKB_POLYGON_HEADER_SIZE + UINT32_SIZE, WKB_POLYGON_HEADER_SIZE + UINT32_SIZE * next;
    SameWord(b, at, points, i, place);
  }

  lemma LaterCount(b: seq<Byte>, ps: seq<Point>, k: nat, next: nat)
    requires k < 4 * |ps| && next == k + 1 && FirstPoints(b, PointsBytes(ps))
    ensures Word(b, next) == PointWord(ps, k)
  {
    LaterWord(b, PointsBytes(ps), k, next, UINT32_SIZE * k);
  }

  lemma DemandStep(b: seq<Byte>, n: nat, next: nat)
    requires next == n + 1
    ensures Demand(b, next) == Demand(b, n) + UINT32_SIZE + 2 * Word(b, n) % UINT32_RANGE * DOUBLE_SIZE
  {
  }

  lemma {:induction false} DemandIs(b: seq<Byte>, ps: seq<Point>, n: nat, next: nat)
    requires n <= 4 * |ps| && next == n + 1 && Word(b, 0) == |ps| && 2 * |ps| < UINT32_RANGE
    requires FirstPoints(b, PointsBytes(ps))
    ensures Demand(b, next) == UINT32_SIZE * next + 16 * |ps| + DOUBLE_SIZE * Claimed(ps, n)
    decreases n
  {
    DemandStep(b, n, next);
    if n == 0 {
      assert Demand(b, 0) == 0;
    } else {
      var before := n - 1;
      DemandIs(b, ps, before, n);
      LaterCount(b, ps, before, n);
    }
  }

  /**
   * A polygon whose first ring is long enough to be read for all counts is accepted exactly when its
   * words claim no more coordinates than the other rings have.
   */
  lemma RingsAccepted(rs: seq<Ring>)
    requires Countable(rs) && rs != [] && |rs| - 1 <= 4 * |rs[0]|
    ensures Admissible(PolygonBytes(rs)) <==> Claimed(rs[0], |rs| - 1) <= 2 * TotalPoints(rs[1..])
  {
    var b := PolygonBytes(rs);
    PolygonFields(rs);
    FirstCount(b, rs);
    DemandIs(b, rs[0], |rs| - 1, |rs|);
    RingsSize(rs);
  }

  /** A polygon with a single ring is always accepted. */
  lemma SingleRingAccepted(r: Ring)
    requires Countable([r])
    ensures Admissible(PolygonBytes([r]))
  {
    RingsAccepted([r]);
  }

  /** With two rings it is the low half of the first coordinate that counts. */
  lemma TwoRingsAccepted(r: Ring, q: Ring)
    requires Countable([r, q]) && r != []
    ensures Admissible(PolygonBytes([r, q])) <==> 2 * DecodeUint32(r[0].x, 0) % UINT32_RANGE <= 2 * |q|
  {
    RingsAccepted([r, q]);
    assert [r, q][1..] == [q] && TotalPoints([q]) == |q| + TotalPoints([]);
    assert Claimed(r, 1) == Claimed(r, 0) + 2 * PointWord(r, 0) % UINT32_RANGE;
    FirstWord(r);
  }

  lemma FirstWord(r: Ring)
    requires r != []
    ensures PointWord(r, 0) == DecodeUint32(r[0].x, 0)
  {
    assert PointsBytes(r)[..8] == r[0].x;
    SameWord(PointsBytes(r), 0, r[0].x, 0, 0);
  }

  /** Two triangles that are refused. */
  lemma TwoRingsRefused(r: Ring, q: Ring)
    requires |r| == |q| == 3 && r[0].x == [255, 0, 0, 0, 0, 0, 0, 0]
    ensures !Admissible(PolygonBytes([r, q]))
  {
    TwoRingsAccepted(r, q);
  }
}

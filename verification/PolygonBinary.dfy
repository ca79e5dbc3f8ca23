/**
 * Reading a polygon from its WKB: PolygonIterator::reset_binary and BinaryIterator
 * (src/polygon.cpp:120-170, 255-293).
 */
module PolygonBinary {
  import opened Requests
  import opened Wkb
  import opened PolygonLayout
  import opened PolygonBuilder
  import opened PolygonPrinter

  datatype State = AtNumPoints | AtPoints | AtDone

  /** Where an iterator is once the points left in the ring are ps and the rings after it are rs. */
  function StateAfterPoint(ps: seq<Point>, rs: seq<Ring>): State {
    if ps != [] then AtPoints else if rs == [] then AtDone else AtNumPoints
  }

  lemma NextRingBytes(b: seq<Byte>, pos: nat, rs: seq<Ring>)
    requires pos <= |b| && b[pos..] == RingsBytes(rs) && rs != [] && Countable(rs)
    ensures pos + UINT32_SIZE <= |b| && DecodeUint32(b, pos) == |rs[0]|
    ensures b[pos + UINT32_SIZE..] == PointsBytes(rs[0]) + RingsBytes(rs[1..])
  {
    DropPrefix(b, pos, RingBytes(rs[0]), RingsBytes(rs[1..]));
    RingFields(b, pos, rs[0]);
    Associate(Uint32(|rs[0]|), PointsBytes(rs[0]), RingsBytes(rs[1..]));
    DropPrefix(b, pos, Uint32(|rs[0]|), PointsBytes(rs[0]) + RingsBytes(rs[1..]));
  }

  lemma DropPrefix(b: seq<Byte>, pos: nat, x: seq<Byte>, y: seq<Byte>)
    requires pos <= |b| && b[pos..] == x + y
    ensures pos + |x| <= |b| && b[pos..pos + |x|] == x && b[pos + |x|..] == y
  {
    assert b[pos..][..|x|] == x;
    assert b[pos..][|x|..] == y;
  }

  lemma NextPointBytes(b: seq<Byte>, pos: nat, ps: seq<Point>, rest: seq<Byte>)
    requires pos <= |b| && b[pos..] == PointsBytes(ps) + rest && ps != []
    ensures pos + 16 <= |b| && b[pos..pos + 8] == ps[0].x && b[pos + 8..pos + 16] == ps[0].y
    ensures b[pos + 16..] == PointsBytes(ps[1..]) + rest
  {
    var p, tail := ps[0], PointsBytes(ps[1..]) + rest;
    Associate(PointBytes(p), PointsBytes(ps[1..]), rest);
    Associate(p.x, p.y, tail);
    DropPrefix(b, pos, p.x, p.y + tail);
    DropPrefix(b, pos + 8, p.y, tail);
  }

  lemma RestCountable(rs: seq<Ring>)
    requires rs != [] && Countable(rs)
    ensures Countable(rs[1..]) && (|rs[0]| * 2) % UINT32_RANGE * DOUBLE_SIZE == 16 * |rs[0]|
  {
  }

  class BinaryIterator {
    const bytes: seq<Byte>
    var state: State
    var position: nat
    var pointsEnd: nat
    /** The points left in the current ring, and the rings not started yet. */
    ghost var points: seq<Point>
    ghost var rings: seq<Ring>

    ghost predicate Valid()
      reads this
    {
      && position <= |bytes| && Countable(rings)
      && bytes[position..] == PointsBytes(points) + RingsBytes(rings)
      && (state != AtPoints ==> points == [])
      && (state == AtPoints ==> pointsEnd == position + 16 * |points|)
      && (state == AtDone ==> rings == [])
    }

    constructor (bytes: seq<Byte>, begin: nat, ghost rings: seq<Ring>)
      requires begin <= |bytes| && bytes[begin..] == RingsBytes(rings) && Countable(rings)
      ensures Valid() && this.bytes == bytes && state == AtNumPoints && this.rings == rings
    {
      this.bytes := bytes;
      state, position, pointsEnd := AtNumPoints, begin, 0;
      points, this.rings := [], rings;
      new;
      assert PointsBytes([]) + RingsBytes(rings) == RingsBytes(rings);
    }

    method NextNumPoints() returns (rc: Error, numPoints: nat)
      requires Valid() && (state == AtNumPoints ==> rings != [])
      modifies this
      ensures Valid()
      ensures old(state) != AtNumPoints ==> rc == InvalidState && unchanged(this)
      ensures old(state) == AtNumPoints ==>
                && rc == Ok && numPoints == |old(rings)[0]| && state == AtPoints
                && points == old(rings)[0] && rings == old(rings)[1..]
    {
      if state != AtNumPoints {
        return InvalidState, 0;
      }
      assert bytes[position..] == RingsBytes(rings);
      NextRingBytes(bytes, position, rings);
      RestCountable(rings);
      numPoints := DecodeUint32(bytes, position);
      position := position + UINT32_SIZE;
      pointsEnd := position + (numPoints * 2) % UINT32_RANGE * DOUBLE_SIZE;
      state := AtPoints;
      points, rings := rings[0], rings[1..];
      rc := Ok;
    }

    method NextPoint() returns (rc: Error, p: Point)
      requires Valid() && (state == AtPoints ==> points != [])
      modifies this
      ensures Valid()
      ensures old(state) != AtPoints ==> rc == InvalidState && unchanged(this)
      ensures old(state) == AtPoints ==>
                && rc == Ok && p == old(points)[0] && points == old(points)[1..] && rings == old(rings)
                && state == StateAfterPoint(points, rings)
    {
      p := Point([0, 0, 0, 0, 0, 0, 0, 0], [0, 0, 0, 0, 0, 0, 0, 0]);
      if state != AtPoints {
        return InvalidState, p;
      }
      NextPointBytes(bytes, position, points, RingsBytes(rings));
      var x := bytes[position..position + DOUBLE_SIZE];
      position := position + DOUBLE_SIZE;
      var y := bytes[position..position + DOUBLE_SIZE];
      position := position + DOUBLE_SIZE;
      p := Point(x, y);
      points := points[1..];
      PointsLeft(bytes, position, points, rings);
      if position >= |bytes| {
        state := AtDone;
      } else if position >= pointsEnd {
        state := AtNumPoints;
      }
      rc := Ok;
    }
  }

  /** The end of the bytes is reached exactly after the last point of the last ring. */
  lemma PointsLeft(b: seq<Byte>, pos: nat, ps: seq<Point>, rs: seq<Ring>)
    requires pos <= |b| && b[pos..] == PointsBytes(ps) + RingsBytes(rs)
    ensures pos >= |b| <==> ps == [] && rs == []
  {
    assert |b[pos..]| == 16 * |ps| + |RingsBytes(rs)|;
  }

  /** The walk can only pass a ring that has a point, or end with an empty one. */
  ghost predicate Walkable(rs: seq<Ring>) {
    forall i :: 0 <= i < |rs| - 1 ==> rs[i] != []
  }

  /** After i rings of the walk. */
  ghost predicate Walked(all: seq<Ring>, i: nat, out: seq<Ring>, rings: seq<Ring>, state: State) {
    && i <= |all| && out == all[..i] && rings == all[i..]
    && (forall k :: 0 <= k < i - 1 ==> all[k] != [])
    && state == (if i == 0 then AtNumPoints
                 else if all[i - 1] == [] then AtPoints
                 else StateAfterPoint([], rings))
  }

  /** The walk is stuck after an empty ring, and only there. */
  lemma WalkGoesOn(all: seq<Ring>, i: nat, out: seq<Ring>, rings: seq<Ring>, state: State)
    requires Walked(all, i, out, rings, state) && i < |all|
    ensures rings != []
    ensures state != AtNumPoints ==> !Walkable(all)
  {
    if state != AtNumPoints {
      assert all[i - 1] == [];
    }
  }

  lemma WalkStep(all: seq<Ring>, i: nat, out: seq<Ring>, rings: seq<Ring>, state: State, ring: Ring)
    requires i < |all| && out == all[..i] && rings == all[i + 1..] && ring == all[i]
    requires forall k :: 0 <= k < i ==> all[k] != []
    requires state == if ring == [] then AtPoints else StateAfterPoint([], rings)
    ensures Walked(all, i + 1, out + [ring], rings, state)
  {
  }

  /** One ring: its count, and then that many points. */
  method ReadRing(it: BinaryIterator) returns (rc: Error, ring: Ring)
    requires it.Valid() && it.points == [] && (it.state == AtNumPoints ==> it.rings != [])
    modifies it
    ensures it.Valid() && it.points == []
    ensures rc == if old(it.state) == AtNumPoints then Ok else InvalidState
    ensures rc == Ok ==> ring == old(it.rings)[0] && it.rings == old(it.rings)[1..]
    ensures rc == Ok ==> it.state == if ring == [] then AtPoints else StateAfterPoint([], it.rings)
  {
    var n: nat;
    ring := [];
    rc, n := it.NextNumPoints();
    if rc != Ok {
      return;
    }
    ghost var all := it.points;
    for j := 0 to n
      invariant it.Valid() && ring == all[..j] && it.points == all[j..]
      invariant it.rings == old(it.rings)[1..]
      invariant it.state == if j == 0 then AtPoints else StateAfterPoint(it.points, it.rings)
    {
      var rc', p := it.NextPoint();
      ring := ring + [p];
      assert all[..j + 1] == all[..j] + [all[j]];
    }
  }

  /**
   * The walk that the iterator is for: for each ring its count and then its points. It gives back
   * the rings of the bytes exactly when no ring but the last is empty.
   */
  method ReadRings(it: BinaryIterator, numRings: nat) returns (rc: Error, out: seq<Ring>)
    requires it.Valid() && it.state == AtNumPoints && numRings == |it.rings|
    modifies it
    ensures it.Valid()
    ensures rc == if Walkable(old(it.rings)) then Ok else InvalidState
    ensures rc == Ok ==> out == old(it.rings)
    ensures rc == Ok && numRings > 0 && out[numRings - 1] != [] ==> it.state == AtDone
  {
    out := [];
    ghost var all := it.rings;
    for i := 0 to numRings
      invariant it.Valid() && it.points == [] && Walked(all, i, out, it.rings, it.state)
    {
      WalkGoesOn(all, i, out, it.rings, it.state);
      var ring: Ring;
      rc, ring := ReadRing(it);
      if rc != Ok {
        return;
      }
      WalkStep(all, i, out, it.rings, it.state, ring);
      out := out + [ring];
    }
    assert all[..numRings] == all;
    rc := Ok;
  }

  // ---------- the size check of reset_binary ----------

  /** The i-th 32-bit word after the header, which reset_binary takes for the i-th ring's count. */
  function Word(bytes: seq<Byte>, i: nat): nat {
    var at := WKB_POLYGON_HEADER_SIZE + UINT32_SIZE * i;
    if at + UINT32_SIZE <= |bytes| then DecodeUint32(bytes, at) else 0
  }

  /** The bytes that n rings with these counts would take. */
  function Demand(bytes: seq<Byte>, n: nat): nat {
    if n == 0 then 0 else Demand(bytes, n - 1) + UINT32_SIZE + 2 * Word(bytes, n - 1) % UINT32_RANGE * DOUBLE_SIZE
  }

  predicate HasHeader(bytes: seq<Byte>) {
    |bytes| >= WKB_POLYGON_HEADER_SIZE && DecodeUint32(bytes, 1) == 3
  }

  predicate Admissible(bytes: seq<Byte>) {
    HasHeader(bytes) && Demand(bytes, DecodeUint32(bytes, WKB_HEADER_SIZE)) <= |bytes| - WKB_POLYGON_HEADER_SIZE
  }

  lemma {:induction false} DemandGrows(bytes: seq<Byte>, m: nat, n: nat)
    requires m <= n
    ensures Demand(bytes, m) + UINT32_SIZE * (n - m) <= Demand(bytes, n)
  {
    if m < n {
      DemandGrows(bytes, m, n - 1);
    }
  }

  /**
   * reset_binary up to the construction of the iterator. The cursor moves over the counts only, not
   * over the points, so from the second ring on the counts are read from the first ring's points.
   */
  method CheckBinary(bytes: seq<Byte>) returns (rc: Error, numRings: nat)
    ensures rc == Ok <==> Admissible(bytes)
    ensures rc == Ok ==> numRings == DecodeUint32(bytes, WKB_HEADER_SIZE)
  {
    numRings := 0;
    if |bytes| < WKB_POLYGON_HEADER_SIZE {
      return NotEnoughData, numRings;
    }
    var size := |bytes| - WKB_POLYGON_HEADER_SIZE;
    if DecodeUint32(bytes, 1) != 3 {
      return InvalidData, numRings;
    }
    numRings := DecodeUint32(bytes, WKB_HEADER_SIZE);
    var pos := WKB_POLYGON_HEADER_SIZE;
    for i := 0 to numRings
      invariant pos == WKB_POLYGON_HEADER_SIZE + UINT32_SIZE * i
      invariant size == |bytes| - WKB_POLYGON_HEADER_SIZE - Demand(bytes, i) && 0 <= size
      invariant pos + size <= |bytes|
    {
      DemandGrows(bytes, i + 1, numRings);
      if size < UINT32_SIZE {
        return NotEnoughData, 0;
      }
      size := size - UINT32_SIZE;
      var numPoints := DecodeUint32(bytes, pos);
      pos := pos + UINT32_SIZE;
      var needed := 2 * numPoints % UINT32_RANGE * DOUBLE_SIZE;
      if size < needed {
        return NotEnoughData, 0;
      }
      size := size - needed;
    }
    rc := Ok;
  }

  /** The header of a polygon's bytes. */
  lemma PolygonFields(rs: seq<Ring>)
    requires Countable(rs)
    ensures var b := PolygonBytes(rs);
            && HasHeader(b) && DecodeUint32(b, WKB_HEADER_SIZE) == |rs|
            && b[WKB_POLYGON_HEADER_SIZE..] == RingsBytes(rs)
  {
    var b := PolygonBytes(rs);
    HeaderSlices(Uint32(3), Uint32(|rs|), RingsBytes(rs));
    DecodeSmallAt(b, 1, 3);
    DecodeSmallAt(b, WKB_HEADER_SIZE, |rs|);
  }

  lemma HeaderSlices(kind: seq<Byte>, count: seq<Byte>, rest: seq<Byte>)
    requires |kind| == |count| == UINT32_SIZE
    ensures var b := [1] + kind + count + rest;
            && b[1..1 + UINT32_SIZE] == kind
            && b[WKB_HEADER_SIZE..WKB_HEADER_SIZE + UINT32_SIZE] == count
            && b[WKB_POLYGON_HEADER_SIZE..] == rest
  {
  }
}

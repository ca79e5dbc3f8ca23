/**
 * The bytes of a polygon that is being built (src/polygon.hpp:29-82, src/serialization.hpp:113-130): its
 * rings, up to the counters that are still to be patched, and the points that were added outside of
 * any ring.
 */
module PolygonLayout {
  import opened Options
  import opened Requests
  import opened Wkb

  /** No counter wraps around: a ring's count is doubled in 32 bits when it is read. */
  predicate Countable(rs: seq<Ring>) {
    |rs| < UINT32_RANGE && forall i :: 0 <= i < |rs| ==> 2 * |rs[i]| < UINT32_RANGE
  }

  /** The bytes of a ring whose counter has not been patched yet. */
  function OpenBytes(open: Option<Ring>): seq<Byte> {
    if open.Some? then Uint32(0) + PointsBytes(open.value) else []
  }

  /** The bytes of the builder: header, ring counter, closed rings, open ring. */
  function Layout(counter: seq<Byte>, closed: seq<Ring>, open: Option<Ring>): seq<Byte> {
    PolygonHeader() + counter + RingsBytes(closed) + OpenBytes(open)
  }

  lemma PatchMiddle(before: seq<Byte>, was: seq<Byte>, after: seq<Byte>, v: seq<Byte>)
    requires |was| == |v|
    ensures Overwritten(before + (was + after), |before|, v) == before + (v + after)
  {
  }

  lemma LayoutIsPolygon(rings: seq<Ring>)
    ensures Layout(Uint32(|rings|), rings, None) == PolygonBytes(rings)
  {
  }

  // Points outside of any ring

  /** A ring with the stray points before it, which its counter counts too. */
  function StrayRingBytes(stray: seq<Point>, r: Ring): seq<Byte> {
    PointsBytes(stray) + (Uint32(|stray| + |r|) + PointsBytes(r))
  }

  function StrayRingsBytes(strays: seq<seq<Point>>, rs: seq<Ring>): seq<Byte>
    requires |strays| == |rs|
  {
    if rs == [] then [] else StrayRingBytes(strays[0], rs[0]) + StrayRingsBytes(strays[1..], rs[1..])
  }

  /** Everything before the open ring. */
  function Before(counter: seq<Byte>, strays: seq<seq<Point>>, closed: seq<Ring>, stray: seq<Point>): seq<Byte>
    requires |strays| == |closed|
  {
    PolygonHeader() + counter + StrayRingsBytes(strays, closed) + PointsBytes(stray)
  }

  function StrayLayout(counter: seq<Byte>, strays: seq<seq<Point>>, closed: seq<Ring>,
                       stray: seq<Point>, open: Option<Ring>): seq<Byte>
    requires |strays| == |closed|
  {
    Before(counter, strays, closed, stray) + OpenBytes(open)
  }

  predicate NoneStray(strays: seq<seq<Point>>) {
    forall i :: 0 <= i < |strays| ==> strays[i] == []
  }

  lemma {:induction false} NoStrays(strays: seq<seq<Point>>, rs: seq<Ring>)
    requires |strays| == |rs| && NoneStray(strays)
    ensures StrayRingsBytes(strays, rs) == RingsBytes(rs)
    decreases |rs|
  {
    if rs != [] {
      NoStrays(strays[1..], rs[1..]);
      assert StrayRingBytes([], rs[0]) == RingBytes(rs[0]);
    }
  }

  /** Without stray points the layout is that of the rings. */
  lemma CleanLayout(counter: seq<Byte>, strays: seq<seq<Point>>, closed: seq<Ring>, open: Option<Ring>)
    requires |strays| == |closed| && NoneStray(strays)
    ensures StrayLayout(counter, strays, closed, [], open) == Layout(counter, closed, open)
    ensures |Before(counter, strays, closed, [])| == |PolygonHeader() + counter| + |RingsBytes(closed)|
  {
    NoStrays(strays, closed);
    assert PointsBytes([]) == [];
    Nothing(PolygonHeader() + counter + RingsBytes(closed));
  }

  lemma Nothing(a: seq<Byte>)
    ensures a + [] == a
  {
  }

  lemma {:induction false} StrayRingsAppend(strays: seq<seq<Point>>, rs: seq<Ring>, stray: seq<Point>, r: Ring)
    requires |strays| == |rs|
    ensures StrayRingsBytes(strays + [stray], rs + [r]) == StrayRingsBytes(strays, rs) + StrayRingBytes(stray, r)
    decreases |rs|
  {
    if rs == [] {
      assert strays + [stray] == [stray] && rs + [r] == [r];
      assert StrayRingsBytes([], []) == [];
    } else {
      assert (strays + [stray])[1..] == strays[1..] + [stray] && (rs + [r])[1..] == rs[1..] + [r];
      StrayRingsAppend(strays[1..], rs[1..], stray, r);
      Associate(StrayRingBytes(strays[0], rs[0]), StrayRingsBytes(strays[1..], rs[1..]), StrayRingBytes(stray, r));
    }
  }

  lemma Associate(a: seq<Byte>, b: seq<Byte>, c: seq<Byte>)
    ensures a + (b + c) == a + b + c
  {
  }

  lemma AddInside(before: seq<Byte>, ps: seq<Point>, p: Point)
    ensures before + OpenBytes(Some(ps)) + p.x + p.y == before + OpenBytes(Some(ps + [p]))
  {
    PointsBytesAppend(ps, p);
    Regroup(before, Uint32(0), PointsBytes(ps), p);
  }

  lemma Regroup(before: seq<Byte>, count: seq<Byte>, points: seq<Byte>, p: Point)
    ensures before + (count + points) + p.x + p.y == before + (count + (points + PointBytes(p)))
  {
  }

  lemma AddOutside(base: seq<Byte>, stray: seq<Point>, p: Point)
    ensures base + PointsBytes(stray) + OpenBytes(None) + p.x + p.y
            == base + PointsBytes(stray + [p]) + OpenBytes(None)
  {
    PointsBytesAppend(stray, p);
  }

  lemma StartInside(before: seq<Byte>)
    ensures before + OpenBytes(None) + Uint32(0) == before + OpenBytes(Some([]))
  {
    assert OpenBytes(Some([])) == Uint32(0);
  }

  /** Patching the count of the open ring, stray points included, closes it and changes no other byte. */
  lemma CloseInside(counter: seq<Byte>, strays: seq<seq<Point>>, closed: seq<Ring>, stray: seq<Point>, r: Ring, at: nat)
    requires |strays| == |closed| && at == |Before(counter, strays, closed, stray)|
    ensures at + UINT32_SIZE <= |StrayLayout(counter, strays, closed, stray, Some(r))|
    ensures Overwritten(StrayLayout(counter, strays, closed, stray, Some(r)), at, Uint32(|stray| + |r|))
            == StrayLayout(counter, strays + [stray], closed + [r], [], None)
  {
    var before, v := Before(counter, strays, closed, stray), Uint32(|stray| + |r|);
    PatchMiddle(before, Uint32(0), PointsBytes(r), v);
    StrayRingsAppend(strays, closed, stray, r);
    Rejoin(PolygonHeader() + counter, StrayRingsBytes(strays, closed), PointsBytes(stray), v + PointsBytes(r));
  }

  lemma Rejoin(a: seq<Byte>, b: seq<Byte>, c: seq<Byte>, d: seq<Byte>)
    ensures a + b + c + d == a + (b + (c + d)) + [] + []
  {
  }

  lemma PatchCount(counter: seq<Byte>, strays: seq<seq<Point>>, closed: seq<Ring>, stray: seq<Point>,
                   open: Option<Ring>, v: seq<Byte>)
    requires |strays| == |closed| && |counter| == |v| == UINT32_SIZE
    ensures WKB_POLYGON_HEADER_SIZE <= |StrayLayout(counter, strays, closed, stray, open)|
    ensures Overwritten(StrayLayout(counter, strays, closed, stray, open), WKB_HEADER_SIZE, v)
            == StrayLayout(v, strays, closed, stray, open)
  {
    PatchSecond(PolygonHeader(), counter, StrayRingsBytes(strays, closed), PointsBytes(stray), OpenBytes(open), v);
  }

  lemma PatchSecond(a: seq<Byte>, was: seq<Byte>, b: seq<Byte>, c: seq<Byte>, d: seq<Byte>, v: seq<Byte>)
    requires |was| == |v|
    ensures Overwritten(a + was + b + c + d, |a|, v) == a + v + b + c + d
  {
    assert a + was + b + c + d == a + (was + (b + c + d));
    PatchMiddle(a, was, b + c + d, v);
  }

  lemma WrapSucc(n: nat)
    ensures (n % UINT32_RANGE + 1) % UINT32_RANGE == (n + 1) % UINT32_RANGE
  {
  }

  lemma UintWraps(n: nat)
    ensures Uint32(n % UINT32_RANGE) == Uint32(n)
  {
    var m, k := n % UINT32_RANGE, n / UINT32_RANGE;
    assert n == m + UINT32_RANGE * k;
    LowByte(m, 16777216 * k);
    assert (m + 256 * (16777216 * k)) / 256 == m / 256 + 16777216 * k;
    LowByte(m / 256, 65536 * k);
    assert (m + 65536 * (65536 * k)) / 65536 == m / 65536 + 65536 * k;
    LowByte(m / 65536, 256 * k);
    assert (m + 16777216 * (256 * k)) / 16777216 == m / 16777216 + 256 * k;
    LowByte(m / 16777216, k);
  }

  lemma LowByte(a: nat, b: nat)
    ensures (a + 256 * b) % 256 == a % 256
  {
  }
}

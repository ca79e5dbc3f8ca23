/** The polygon builder, which back-patches its counters (src/polygon.hpp). */
module PolygonBuilder {
  import opened Options
  import opened Requests
  import opened Wkb
  import opened PolygonLayout

  datatype Error = Ok | InvalidState | NotEnoughData | InvalidData | BadParams

  class Polygon {
    var numRings: nat
    var numPoints: nat
    var ringStartIndex: nat
    var bytes: seq<Byte>
    /** The rings started and left behind, and the points of the ring being filled. */
    ghost var closed: seq<Ring>
    ghost var open: Option<Ring>
    /** The points that were added outside of any ring, before each closed ring and after them. */
    ghost var strays: seq<seq<Point>>
    ghost var stray: seq<Point>
    /** What the four bytes of the ring counter hold. */
    ghost var counter: seq<Byte>

    /** What every sequence of calls keeps: stray points stand before the next ring and in its count. */
    ghost predicate Laid()
      reads this
    {
      && |counter| == UINT32_SIZE && |strays| == |closed|
      && bytes == StrayLayout(counter, strays, closed, stray, open)
      && numRings == |Rings()| % UINT32_RANGE
      && numPoints == Counted() % UINT32_RANGE
      && ringStartIndex == (if open.Some? then |Before(counter, strays, closed, stray)| else 0)
    }

    /** The points that the count of the open ring stands for, or of the next one. */
    ghost function Counted(): nat
      reads this
    {
      |stray| + if open.Some? then |open.value| else 0
    }

    ghost predicate Clean()
      reads this
    {
      NoneStray(strays) && stray == []
    }

    /** The bytes are the WKB of the rings, up to the two counters that are still to be patched. */
    ghost predicate Valid()
      reads this
    {
      && |counter| == UINT32_SIZE && |strays| == |closed| && Clean()
      && bytes == Layout(counter, closed, open)
      && numRings == |Rings()| % UINT32_RANGE
      && numPoints == (if open.Some? then |open.value| % UINT32_RANGE else 0)
      && ringStartIndex == (if open.Some? then WKB_POLYGON_HEADER_SIZE + |RingsBytes(closed)| else 0)
    }

    /** All rings that were started. */
    ghost function Rings(): seq<Ring>
      reads this
    {
      if open.Some? then closed + [open.value] else closed
    }

    lemma CleanIsValid()
      requires Clean() && |counter| == UINT32_SIZE && |strays| == |closed|
      ensures Laid() <==> Valid()
    {
      CleanLayout(counter, strays, closed, open);
    }

    /** The count of a ring that is not too long. */
    lemma PointsOf()
      requires Valid() && Countable(Rings()) && open.Some?
      ensures numPoints == |open.value|
    {
      assert Rings()[|closed|] == open.value;
    }

    constructor ()
      ensures Laid() && Valid() && closed == [] && open == None
    {
      numRings, numPoints, ringStartIndex := 0, 0, 0;
      bytes := PolygonHeader() + Uint32(0);
      closed, open, strays, stray, counter := [], None, [], [], Uint32(0);
    }

    method Reset()
      modifies this
      ensures Laid() && Valid() && closed == [] && open == None
    {
      numRings, numPoints, ringStartIndex := 0, 0, 0;
      bytes := PolygonHeader() + Uint32(0);
      closed, open, strays, stray, counter := [], None, [], [], Uint32(0);
    }

    /** A ring that counts one or two points is refused and nothing changes. */
    method FinishRing() returns (rc: Error)
      requires Laid()
      modifies this
      ensures Laid() && (old(Valid()) ==> Valid())
      ensures rc == Ok <==> old(open.None? || (numPoints != 1 && numPoints != 2))
      ensures rc != Ok || old(open.None?) ==> unchanged(this)
      ensures rc == Ok ==> open.None? && closed == old(Rings()) && counter == old(counter)
      ensures rc == Ok && old(open.Some?) ==> strays == old(strays) + [old(stray)] && stray == []
    {
      if ringStartIndex > 0 {
        if numPoints == 1 || numPoints == 2 {
          return InvalidState;
        }
        CloseOpenRing();
        if old(Valid()) {
          CleanIsValid();
        }
      }
      rc := Ok;
    }

    method CloseOpenRing()
      requires Laid() && open.Some?
      modifies this
      ensures Laid() && open.None? && closed == old(Rings()) && counter == old(counter)
      ensures strays == old(strays) + [old(stray)] && stray == []
    {
      ghost var ring := open.value;
      CloseInside(counter, strays, closed, stray, ring, ringStartIndex);
      UintWraps(|stray| + |ring|);
      bytes := Overwritten(bytes, ringStartIndex, Uint32(numPoints));
      assert bytes == StrayLayout(counter, strays + [stray], closed + [ring], [], None);
      numPoints, ringStartIndex := 0, 0;
      closed, open, strays, stray := closed + [ring], None, strays + [stray], [];
    }

    method StartRing() returns (rc: Error)
      requires Laid()
      modifies this
      ensures Laid() && (old(Valid()) ==> Valid())
      ensures rc == Ok <==> old(open.None? || (numPoints != 1 && numPoints != 2))
      ensures rc == Ok ==> closed == old(Rings()) && open == Some([])
      ensures rc == Ok && old(open.None?) ==> stray == old(stray) && strays == old(strays)
      ensures rc != Ok ==> unchanged(this)
    {
      rc := FinishRing();
      if rc != Ok {
        return;
      }
      ringStartIndex := |bytes|;
      WrapSucc(|closed|);
      StartInside(Before(counter, strays, closed, stray));
      bytes := bytes + Uint32(0);
      numRings := (numRings + 1) % UINT32_RANGE;
      open := Some([]);
      if old(Valid()) {
        CleanIsValid();
      }
    }

    /**
     * Inside a ring the point joins it. Outside one it is written all the same: it stands astray
     * before the next ring, whose count it will be in.
     */
    method AddPoint(p: Point)
      requires Laid()
      modifies this
      ensures Laid() && bytes == old(bytes) + p.x + p.y && Counted() == old(Counted()) + 1
      ensures closed == old(closed) && strays == old(strays) && counter == old(counter)
      ensures old(open.Some?) ==> open == Some(old(open).value + [p]) && stray == old(stray)
      ensures old(open.None?) ==> open.None? && stray == old(stray) + [p]
      ensures old(Valid()) ==> (Valid() <==> old(open.Some?))
    {
      WrapSucc(Counted());
      if open.Some? {
        AddInside(Before(counter, strays, closed, stray), open.value, p);
      } else {
        AddOutside(PolygonHeader() + counter + StrayRingsBytes(strays, closed), stray, p);
      }
      bytes := bytes + p.x;
      bytes := bytes + p.y;
      numPoints := (numPoints + 1) % UINT32_RANGE;
      if open.Some? {
        open := Some(open.value + [p]);
      } else {
        stray := stray + [p];
      }
      if old(Valid()) && open.Some? {
        CleanIsValid();
      }
    }

    method Finish() returns (rc: Error)
      requires Laid()
      modifies this
      ensures Laid() && Rings() == old(Rings()) && (old(Valid()) ==> Valid())
      ensures rc == Ok <==> old(open.None? || (numPoints != 1 && numPoints != 2))
      ensures rc == Ok ==> open.None? && closed == old(Rings()) && counter == Uint32(|closed|)
      ensures rc == Ok && old(open.None?) ==> strays == old(strays) && stray == old(stray)
      ensures rc == Ok && old(open.Some?) ==> strays == old(strays) + [old(stray)] && stray == []
      ensures rc == Ok && old(Valid()) ==> bytes == PolygonBytes(old(Rings()))
    {
      UintWraps(|Rings()|);
      PatchCount(counter, strays, closed, stray, open, Uint32(numRings));
      bytes := Overwritten(bytes, WKB_HEADER_SIZE, Uint32(numRings));
      counter := Uint32(numRings);
      if old(Valid()) {
        CleanIsValid();
      }
      rc := FinishRing();
      LayoutIsPolygon(old(Rings()));
    }
  }
}

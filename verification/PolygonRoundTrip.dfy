/** From the builder through both encodings and back (src/polygon.hpp, src/polygon.cpp). */
module PolygonRoundTrip {
  import opened Wkb
  import opened PolygonLayout
  import opened PolygonBuilder
  import opened PolygonPrinter
  import opened PolygonBinary
  import opened PolygonGrammar
  import opened PolygonText

  /**
   * What reading a polygon back gives: the result of the walk, the number of rings, the rings, and
   * whether the iterator is done with nothing left to read.
   */
  datatype Reading = Reading(rc: Error, numRings: nat, rings: seq<Ring>, done: bool)

  ghost predicate LastHasPoints(rs: seq<Ring>) { rs != [] && rs[|rs| - 1] != [] }

  /** The walk over the bytes of a finished polygon; `admitted` is the verdict of reset_binary. */
  method ReadBinary(polygon: Polygon) returns (r: Reading, admitted: bool)
    requires polygon.Valid() && polygon.bytes == PolygonBytes(polygon.closed) && Countable(polygon.closed)
    ensures r.numRings == |polygon.closed|
    ensures r.rc == if Walkable(polygon.closed) then Ok else InvalidState
    ensures r.rc == Ok ==> r.rings == polygon.closed && (LastHasPoints(polygon.closed) ==> r.done)
    ensures admitted <==> Admissible(polygon.bytes)
  {
    PolygonFields(polygon.closed);
    var check, n := CheckBinary(polygon.bytes);
    admitted := check == Ok;
    var numRings := DecodeUint32(polygon.bytes, WKB_HEADER_SIZE);
    var it := new BinaryIterator(polygon.bytes, WKB_POLYGON_HEADER_SIZE, polygon.closed);
    var rc, rings := ReadRings(it, numRings);
    r := Reading(rc, numRings, rings, it.state == AtDone && it.position == |it.bytes|);
  }

  /** The text of a finished polygon is accepted and walked. */
  method ReadText(polygon: Polygon, codec: Codec) returns (r: Reading)
    requires polygon.Valid() && polygon.open.None? && Countable(polygon.closed)
    requires codec.Valid() && codec.FiniteRings(polygon.closed) && polygon.closed != []
    ensures r.numRings == |polygon.closed|
    ensures r.rc == if Walkable(polygon.closed) then Ok else InvalidState
    ensures r.rc == Ok ==> r.rings == polygon.closed && (LastHasPoints(polygon.closed) ==> r.done)
  {
    var text := ToWkt(polygon, codec);
    PrintedHasRings(text, codec, polygon.closed);
    var check, numRings, iterates := CheckText(text);
    r := WalkText(codec, text, numRings, polygon.closed);
  }

  method WalkText(codec: Codec, text: string, numRings: nat, ghost rings: seq<Ring>) returns (r: Reading)
    requires codec.Valid() && codec.FiniteRings(rings) && rings != [] && text == codec.PolygonText(rings)
    requires numRings == |rings|
    ensures r.numRings == numRings
    ensures r.rc == if Walkable(rings) then Ok else InvalidState
    ensures r.rc == Ok ==> r.rings == rings && (LastHasPoints(rings) ==> r.done)
  {
    var it := new TextIterator(codec, text, rings);
    var rc, out := ReadRingsText(it, numRings);
    r := Reading(rc, numRings, out, it.state == AtDone && it.lexer.position == |text|);
  }

  method FinishValid(polygon: Polygon) returns (rc: Error)
    requires polygon.Valid() && Countable(polygon.Rings())
    modifies polygon
    ensures rc == Ok <==> !old(polygon.open.Some? && 1 <= |polygon.open.value| <= 2)
    ensures rc == Ok ==> polygon.Valid() && polygon.open.None? && polygon.closed == old(polygon.Rings())
    ensures rc == Ok ==> polygon.bytes == PolygonBytes(polygon.closed)
  {
    if polygon.open.Some? {
      polygon.PointsOf();
    }
    polygon.CleanIsValid();
    rc := polygon.Finish();
  }

  /**
   * A polygon of finite points, once finished, reads the same from its bytes and from its text:
   * the same ring count, the same verdict, and, when no ring but the last is empty, the rings that
   * were added, in order, with nothing left to read.
   */
  method BothReadingsAgree(polygon: Polygon, codec: Codec) returns (rc: Error, binary: Reading, text: Reading)
    requires polygon.Valid() && polygon.Rings() != [] && Countable(polygon.Rings())
    requires codec.Valid() && codec.FiniteRings(polygon.Rings())
    modifies polygon
    ensures rc == Ok ==> binary.rc == text.rc && binary.numRings == text.numRings == |old(polygon.Rings())|
    ensures rc == Ok ==> (binary.rc == Ok <==> Walkable(old(polygon.Rings())))
    ensures rc == Ok && binary.rc == Ok ==> binary.rings == text.rings == old(polygon.Rings())
    ensures rc == Ok && binary.rc == Ok && old(LastHasPoints(polygon.Rings())) ==> binary.done && text.done
    ensures rc != Ok <==> old(polygon.open.Some? && 1 <= |polygon.open.value| <= 2)
  {
    binary, text := Reading(InvalidState, 0, [], false), Reading(InvalidState, 0, [], false);
    rc := FinishValid(polygon);
    if rc != Ok {
      return;
    }
    var admitted: bool;
    binary, admitted := ReadBinary(polygon);
    text := ReadText(polygon, codec);
  }
}

/**
 * The texts that PolygonIterator::reset_text accepts (src/polygon.cpp:172-253), as a language of
 * tokens: rings of points in parentheses, where the comma between two points or two rings may be
 * left out, but none may stand before a closing parenthesis.
 */
module PolygonGrammar {
  import opened Options
  import opened WktTokens
  import opened WktAutomaton
  import opened Wkb
  import opened PolygonTokens

  type Token = WktAutomaton.Token

  datatype Stream = End | Then(head: Token, tail: Stream)

  /** The tokens from position p to the end of the text. */
  ghost function Tokens(text: string, p: nat): Stream
    requires p <= |text|
    decreases |text| - p
  {
    if p == |text| then End else Then(NextToken(text, p).0, Tokens(text, NextToken(text, p).1))
  }

  // ---------- the language ----------

  /** One ring: for each point whether a comma follows it, and whether one follows the ring. */
  datatype Shape = Shape(points: seq<bool>, comma: bool)

  ghost predicate ProperPoints(points: seq<bool>) { points != [] ==> !points[|points| - 1] }

  ghost predicate Proper(rings: seq<Shape>) {
    && (forall i :: 0 <= i < |rings| ==> ProperPoints(rings[i].points))
    && (rings != [] ==> !rings[|rings| - 1].comma)
  }

  function WithComma(comma: bool, rest: Stream): Stream { if comma then Then(Comma, rest) else rest }

  /** The points of a ring and its closing parenthesis, and then the rest. */
  function WithPoints(points: seq<bool>, rest: Stream): Stream {
    if points == [] then Then(CloseParen, rest)
    else Then(Number, Then(Number, WithComma(points[0], WithPoints(points[1..], rest))))
  }

  /** The rings of a polygon and its closing parenthesis, and then the rest. */
  function WithRings(rings: seq<Shape>, rest: Stream): Stream {
    if rings == [] then Then(CloseParen, rest)
    else Then(OpenParen, WithPoints(rings[0].points, WithComma(rings[0].comma, WithRings(rings[1..], rest))))
  }

  /** The text starts with a polygon of these rings; what comes after it does not matter. */
  ghost predicate HasRings(text: string, rings: seq<Shape>) {
    Proper(rings) && exists rest :: Tokens(text, 0) == Then(TypePolygon, Then(OpenParen, WithRings(rings, rest)))
  }

  predicate StartsWith(ts: Stream, first: Token, second: Token) {
    ts.Then? && ts.head == first && ts.tail.Then? && ts.tail.head == second
  }

  ghost predicate IsEmpty(text: string) { StartsWith(Tokens(text, 0), TypePolygon, Empty) }

  // ---------- recognising it from left to right ----------

  /** What is left after the points of a ring and its closing parenthesis. */
  function AfterPoints(ts: Stream): (r: Option<Stream>)
    ensures r.Some? ==> r.value < ts
    decreases ts, 0
  {
    if ts.End? then None
    else if ts.head == CloseParen then Some(ts.tail)
    else if ts.head != Number || ts.tail.End? || ts.tail.head != Number then None
    else AfterPoint(ts.tail.tail)
  }

  /** After a point: another one, with or without a comma, or the closing parenthesis. */
  function AfterPoint(ts: Stream): (r: Option<Stream>)
    ensures r.Some? ==> r.value < ts
    decreases ts, 1
  {
    if ts.End? || ts.head != Comma then AfterPoints(ts)
    else if ts.tail.End? || ts.tail.head != Number then None
    else AfterPoints(ts.tail)
  }

  /** The number of rings up to the closing parenthesis of the polygon. */
  function CountRings(ts: Stream): (r: Option<nat>)
    decreases ts, 0
  {
    if ts.End? then None
    else if ts.head == CloseParen then Some(0)
    else if ts.head != OpenParen then None
    else
      var rest := AfterPoints(ts.tail);
      if rest == None then None else OneMore(CountAfterRing(rest.value))
  }

  function OneMore(n: Option<nat>): Option<nat> { if n == None then None else Some(n.value + 1) }

  /** After a ring: another one, with or without a comma, or the closing parenthesis. */
  function CountAfterRing(ts: Stream): (r: Option<nat>)
    decreases ts, 1
  {
    if ts.End? || ts.head != Comma then CountRings(ts)
    else if ts.tail.End? || ts.tail.head != OpenParen then None
    else CountRings(ts.tail)
  }

  // ---------- the recogniser is exact ----------

  lemma {:induction false} PointsComplete(points: seq<bool>, rest: Stream)
    requires ProperPoints(points)
    ensures AfterPoints(WithPoints(points, rest)) == Some(rest)
    decreases |points|
  {
    if points != [] {
      PointsComplete(points[1..], rest);
    }
  }

  lemma {:induction false} PointsSound(ts: Stream) returns (points: seq<bool>)
    requires AfterPoints(ts).Some?
    ensures ProperPoints(points) && ts == WithPoints(points, AfterPoints(ts).value)
    decreases ts
  {
    if ts.head == CloseParen {
      points := [];
    } else {
      var after := ts.tail.tail;
      var comma := after.Then? && after.head == Comma;
      var more := PointsSound(if comma then after.tail else after);
      points := [comma] + more;
      assert points[1..] == more;
    }
  }

  lemma {:induction false} RingsComplete(rings: seq<Shape>, rest: Stream)
    requires Proper(rings)
    ensures CountRings(WithRings(rings, rest)) == Some(|rings|)
    decreases |rings|
  {
    if rings != [] {
      var more := WithRings(rings[1..], rest);
      PointsComplete(rings[0].points, WithComma(rings[0].comma, more));
      RingsComplete(rings[1..], rest);
    }
  }

  lemma {:induction false} RingsSound(ts: Stream) returns (rings: seq<Shape>, rest: Stream)
    requires CountRings(ts).Some?
    ensures Proper(rings) && |rings| == CountRings(ts).value && ts == WithRings(rings, rest)
    decreases ts
  {
    if ts.head == CloseParen {
      rings, rest := [], ts.tail;
    } else {
      var points := PointsSound(ts.tail);
      var after := AfterPoints(ts.tail).value;
      var comma := after.Then? && after.head == Comma;
      var more;
      more, rest := RingsSound(if comma then after.tail else after);
      rings := [Shape(points, comma)] + more;
      assert rings[1..] == more;
    }
  }

  ghost function Counted(ts: Stream): Option<nat> {
    if StartsWith(ts, TypePolygon, OpenParen) then CountRings(ts.tail.tail) else None
  }

  /** The rings that a text has, if any, are as many as the recogniser counts. */
  lemma RingsCounted(text: string)
    ensures (exists rings :: HasRings(text, rings)) <==> Counted(Tokens(text, 0)).Some?
    ensures forall rings :: HasRings(text, rings) ==> Counted(Tokens(text, 0)) == Some(|rings|)
  {
    var ts := Tokens(text, 0);
    forall rings | HasRings(text, rings)
      ensures Counted(ts) == Some(|rings|)
    {
      var rest :| ts == Then(TypePolygon, Then(OpenParen, WithRings(rings, rest)));
      RingsComplete(rings, rest);
    }
    if Counted(ts).Some? {
      var rings, rest := RingsSound(ts.tail.tail);
      assert HasRings(text, rings);
    }
  }

  // ---------- printed text ----------

  /** A printed list has its commas between the items. */
  function Commas(n: nat): (r: seq<bool>)
    ensures |r| == n
  {
    if n == 0 then [] else [n > 1] + Commas(n - 1)
  }

  function Shapes(rings: seq<Ring>): (r: seq<Shape>)
    ensures |r| == |rings|
  {
    if rings == [] then [] else [Shape(Commas(|rings[0]|), |rings| > 1)] + Shapes(rings[1..])
  }

  lemma {:induction false} CommasProper(n: nat)
    ensures ProperPoints(Commas(n))
  {
    if n > 1 {
      CommasProper(n - 1);
    }
  }

  lemma {:induction false} ShapesProper(rings: seq<Ring>)
    ensures Proper(Shapes(rings))
  {
    if rings != [] {
      CommasProper(|rings[0]|);
      ShapesProper(rings[1..]);
    }
  }

  lemma {:induction false} PrintedPoints(text: string, i: nat, codec: Codec, ps: seq<Point>, rs: seq<Ring>)
    returns (j: nat)
    requires Numeric(codec, ps) && Upcoming(text, i, PointsTail(codec, ps, rs))
    ensures j <= |text| && text[j..] == RingsTail(codec, rs)
    ensures Tokens(text, i) == WithPoints(Commas(|ps|), Tokens(text, j))
    decreases |ps|, 0
  {
    if ps == [] {
      j := PrintedNoPoint(text, i, codec, rs);
    } else {
      var next := PrintedPoint(text, i, codec, ps, rs);
      j := PrintedAfterPoint(text, next, codec, ps[1..], rs);
      NextComma(|ps|, Tokens(text, j));
    }
  }

  lemma PrintedNoPoint(text: string, i: nat, codec: Codec, rs: seq<Ring>) returns (j: nat)
    requires codec.Valid() && Upcoming(text, i, PointsTail(codec, [], rs))
    ensures j <= |text| && text[j..] == RingsTail(codec, rs)
    ensures Tokens(text, i) == WithPoints([], Tokens(text, j))
  {
    FirstToken(text, i, codec, [], rs);
    j := NextToken(text, i).1;
  }

  lemma NextComma(n: nat, rest: Stream)
    requires n > 0
    ensures WithPoints(Commas(n), rest)
            == Then(Number, Then(Number, WithComma(n > 1, WithPoints(Commas(n - 1), rest))))
  {
    assert Commas(n)[1..] == Commas(n - 1);
  }

  lemma PrintedPoint(text: string, i: nat, codec: Codec, ps: seq<Point>, rs: seq<Ring>) returns (j: nat)
    requires ps != [] && Numeric(codec, ps) && Upcoming(text, i, PointsTail(codec, ps, rs))
    ensures j <= |text| && text[j..] == MorePoints(codec, ps[1..], rs)
    ensures Tokens(text, i) == Then(Number, Then(Number, Tokens(text, j)))
  {
    FirstToken(text, i, codec, ps, rs);
    var next := NextToken(text, i).1;
    assert codec.Finite(ps[0]);
    SecondToken(text, next, codec, ps, rs);
    j := NextToken(text, next).1;
  }

  lemma {:induction false} PrintedAfterPoint(text: string, i: nat, codec: Codec, ps: seq<Point>, rs: seq<Ring>)
    returns (j: nat)
    requires Numeric(codec, ps) && i <= |text| && text[i..] == MorePoints(codec, ps, rs)
    ensures j <= |text| && text[j..] == RingsTail(codec, rs)
    ensures Tokens(text, i) == WithComma(ps != [], WithPoints(Commas(|ps|), Tokens(text, j)))
    decreases |ps|, 1
  {
    SeparatorToken(text, i, codec, ps, rs);
    var next := NextToken(text, i).1;
    if ps == [] {
      j := next;
    } else {
      j := PrintedPoints(text, next, codec, ps, rs);
    }
  }

  lemma {:induction false} PrintedRings(text: string, i: nat, codec: Codec, rs: seq<Ring>) returns (rest: Stream)
    requires codec.Valid() && codec.FiniteRings(rs) && rs != [] && Upcoming(text, i, codec.RingsText(rs) + ")")
    ensures Tokens(text, i) == WithRings(Shapes(rs), rest)
    decreases |rs|
  {
    OpenRingToken(text, i, codec, rs);
    var first := NextToken(text, i).1;
    var last := PrintedPoints(text, first, codec, rs[0], rs[1..]);
    RingSeparatorToken(text, last, codec, rs[1..]);
    var next := NextToken(text, last).1;
    if |rs| == 1 {
      rest := Tokens(text, next);
    } else {
      rest := PrintedRings(text, next, codec, rs[1..]);
    }
    assert Shapes(rs)[1..] == Shapes(rs[1..]);
  }

  /** Printed text has the rings that were printed, with every comma. */
  lemma PrintedHasRings(text: string, codec: Codec, rings: seq<Ring>)
    requires codec.Valid() && codec.FiniteRings(rings) && rings != [] && text == codec.PolygonText(rings)
    ensures HasRings(text, Shapes(rings)) && |Shapes(rings)| == |rings|
  {
    PolygonOpens(text, codec, rings);
    var rest := PrintedRings(text, 9, codec, rings);
    ShapesProper(rings);
    assert Tokens(text, 0) == Then(TypePolygon, Tokens(text, 7));
  }

  /** The text of a polygon without rings is the empty one, and no list of rings. */
  lemma PrintedIsEmpty(text: string, codec: Codec)
    requires text == codec.PolygonText([])
    ensures IsEmpty(text) && !exists rings :: HasRings(text, rings)
  {
    PolygonWord(text, " EMPTY");
    EmptyWord(text);
    assert |text| == 13;
    assert Tokens(text, 0) == Then(TypePolygon, Tokens(text, 7));
    RingsCounted(text);
  }
}

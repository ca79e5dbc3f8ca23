/** Reading a polygon from its WKT: PolygonIterator::reset_text and TextIterator (src/polygon.cpp:172-253, 295-366). */
module PolygonText {
  import opened Options
  import opened Wkb
  import opened WktTokens
  import WktAutomaton
  import opened WktLexers
  import opened PolygonTokens
  import opened PolygonGrammar
  import opened PolygonBuilder
  import opened PolygonBinary

  class TextIterator {
    const codec: Codec
    const lexer: WktLexer
    var state: State
    /** The points left in the current ring, and the rings not started yet. */
    ghost var points: seq<Point>
    ghost var rings: seq<Ring>

    ghost predicate Valid()
      reads this, lexer
    {
      && lexer.Valid() && !lexer.skipNumber
      && codec.Valid() && codec.AllFinite(points) && codec.FiniteRings(rings)
      && match state
         case AtNumPoints =>
           && rings != [] && points == []
           && Upcoming(lexer.text, lexer.position, codec.RingsText(rings) + ")")
         case AtPoints => Upcoming(lexer.text, lexer.position, PointsTail(codec, points, rings))
         case AtDone => rings == [] && points == [] && lexer.position == |lexer.text|
    }

    constructor (codec: Codec, text: string, ghost rings: seq<Ring>)
      requires codec.Valid() && codec.FiniteRings(rings) && rings != [] && text == codec.PolygonText(rings)
      ensures Valid() && fresh(lexer) && state == AtNumPoints && this.rings == rings && lexer.text == text
      ensures this.codec == codec
    {
      this.codec := codec;
      state := AtNumPoints;
      points, this.rings := [], rings;
      lexer := new WktLexer(text, false);
      new;
      PolygonOpens(text, codec, rings);
      var token := lexer.NextToken();
      assert token == WktAutomaton.TypePolygon;
      token := lexer.NextToken();
      assert token == WktAutomaton.OpenParen;
    }

    /** Out of turn the call fails, but not before it has taken a token from the lexer. */
    method NextNumPoints() returns (rc: Error, numPoints: nat)
      requires Valid()
      modifies this, lexer
      ensures old(state) != AtNumPoints ==>
                && rc == InvalidState && numPoints == 0 && unchanged(this)
                && lexer.position == NextToken(lexer.text, old(lexer.position)).1
      ensures old(state) == AtNumPoints ==>
                && Valid() && rc == Ok && numPoints == |old(rings)[0]| && state == AtPoints
                && points == old(rings)[0] && rings == old(rings)[1..]
    {
      if state == AtNumPoints {
        OpenRingToken(lexer.text, lexer.position, codec, rings);
      }
      var token := lexer.NextToken();
      numPoints := 0;
      if state != AtNumPoints || token != WktAutomaton.OpenParen {
        return InvalidState, 0;
      }
      points, rings := rings[0], rings[1..];
      numPoints := CountPoints(codec, lexer, points, rings);
      state := AtPoints;
      rc := Ok;
    }

    method NextPoint() returns (rc: Error, p: Point)
      requires Valid() && (state == AtPoints ==> points != [])
      modifies this, lexer
      ensures Valid()
      ensures old(state) != AtPoints ==> rc == InvalidState && unchanged(this) && unchanged(lexer)
      ensures old(state) == AtPoints ==>
                && rc == Ok && p == old(points)[0] && points == old(points)[1..] && rings == old(rings)
                && state == StateAfterPoint(points, rings)
    {
      p := Point([0, 0, 0, 0, 0, 0, 0, 0], [0, 0, 0, 0, 0, 0, 0, 0]);
      if state != AtPoints {
        return InvalidState, p;
      }
      var token := TakeFirst(lexer, codec, points, rings);
      assert token == WktAutomaton.Number && codec.Finite(points[0]);
      var x := codec.atof(lexer.lexeme);
      token := TakeSecond(lexer, codec, points, rings);
      assert token == WktAutomaton.Number;
      var y := codec.atof(lexer.lexeme);
      p := Point(x, y);
      points := points[1..];
      token := TakeSeparator(lexer, codec, points, rings);
      if token == WktAutomaton.CloseParen {
        token := TakeRingSeparator(lexer, codec, rings);
        if token == WktAutomaton.CloseParen {
          state := AtDone;
        } else {
          assert token == WktAutomaton.Comma;
          state := AtNumPoints;
        }
      } else {
        assert token == WktAutomaton.Comma;
      }
      rc := Ok;
    }
  }

  /** The first number of the next point was read, or the parenthesis after the last one. */
  ghost predicate Counting(text: string, position: nat, codec: Codec, rest: seq<Point>, rs: seq<Ring>, token: Token) {
    if rest == [] then token == WktAutomaton.CloseParen
    else token == WktAutomaton.Number && position <= |text| && text[position..] == AfterX(codec, rest, rs)
  }

  /** The rest of a point whose first number was read, and the first token of the next one. */
  method CountPoint(temp: WktLexer, ghost codec: Codec, ghost ps: seq<Point>, ghost rs: seq<Ring>)
    returns (token: Token)
    requires temp.Valid() && ps != [] && Numeric(codec, ps) && temp.text[temp.position..] == AfterX(codec, ps, rs)
    modifies temp
    ensures temp.Valid() && Counting(temp.text, temp.position, codec, ps[1..], rs, token)
  {
    token := TakeSecond(temp, codec, ps, rs);
    assert token == WktAutomaton.Number;
    token := TakeSeparator(temp, codec, ps[1..], rs);
    if token == WktAutomaton.Comma {
      token := TakeFirst(temp, codec, ps[1..], rs);
      assert token == WktAutomaton.Number;
    }
  }

  /** The points of a ring, counted with a second lexer. */
  method CountPoints(codec: Codec, lexer: WktLexer, ghost ps: seq<Point>, ghost rs: seq<Ring>) returns (n: nat)
    requires lexer.Valid() && codec.Valid() && codec.AllFinite(ps)
    requires Upcoming(lexer.text, lexer.position, PointsTail(codec, ps, rs))
    ensures n == |ps|
  {
    n := 0;
    var temp := new WktLexer.ReadAhead(lexer, true);
    var token := TakeFirst(temp, codec, ps, rs);
    ghost var rest := ps;
    while token != WktAutomaton.Eof && token != WktAutomaton.CloseParen
      invariant temp.Valid() && n + |rest| == |ps| && Numeric(codec, rest)
      invariant Counting(temp.text, temp.position, codec, rest, rs, token)
      decreases |rest|
    {
      token := CountPoint(temp, codec, rest, rs);
      rest := rest[1..];
      n := n + 1;
    }
  }

  // ---------- the walk ----------

  method ReadPointsText(it: TextIterator, n: nat) returns (ring: Ring)
    requires it.Valid() && it.state == AtPoints && n == |it.points|
    modifies it, it.lexer
    ensures it.Valid() && it.points == [] && ring == old(it.points) && it.rings == old(it.rings)
    ensures it.state == if n == 0 then AtPoints else StateAfterPoint([], it.rings)
  {
    ring := [];
    ghost var all := it.points;
    for j := 0 to n
      invariant it.Valid() && ring + it.points == all && |it.points| == n - j && it.rings == old(it.rings)
      invariant it.state == if j == 0 then AtPoints else StateAfterPoint(it.points, it.rings)
    {
      ghost var left := it.points;
      var rc, p := it.NextPoint();
      assert left == [p] + it.points;
      ring := ring + [p];
    }
  }

  method ReadRingText(it: TextIterator) returns (rc: Error, ring: Ring)
    requires it.Valid() && it.points == []
    modifies it, it.lexer
    ensures rc == if old(it.state) == AtNumPoints then Ok else InvalidState
    ensures rc == Ok ==>
              && it.Valid() && it.points == []
              && ring == old(it.rings)[0] && it.rings == old(it.rings)[1..]
              && it.state == if ring == [] then AtPoints else StateAfterPoint([], it.rings)
  {
    var n: nat;
    ring := [];
    rc, n := it.NextNumPoints();
    if rc == Ok {
      ring := ReadPointsText(it, n);
    }
  }

  /** The same walk as over the binary form, and with the same result. */
  method ReadRingsText(it: TextIterator, numRings: nat) returns (rc: Error, out: seq<Ring>)
    requires it.Valid() && it.state == AtNumPoints && numRings == |it.rings|
    modifies it, it.lexer
    ensures rc == if Walkable(old(it.rings)) then Ok else InvalidState
    ensures rc == Ok ==> it.Valid() && out == old(it.rings)
    ensures rc == Ok && out[numRings - 1] != [] ==> it.state == AtDone
  {
    out := [];
    ghost var all := it.rings;
    for i := 0 to numRings
      invariant it.Valid() && it.points == [] && Walked(all, i, out, it.rings, it.state)
    {
      WalkGoesOn(all, i, out, it.rings, it.state);
      var ring: Ring;
      rc, ring := ReadRingText(it);
      if rc != Ok {
        return;
      }
      WalkStep(all, i, out, it.rings, it.state, ring);
      out := out + [ring];
    }
    assert all[..numRings] == all;
    rc := Ok;
  }

  // ---------- the validator ----------

  /** The token in hand and the tokens after it. */
  ghost function Ahead(lexer: WktLexer, token: Token): Stream
    requires lexer.Valid()
    reads lexer
  {
    if token == WktAutomaton.Eof then End else Then(token, Tokens(lexer.text, lexer.position))
  }

  method TakeToken(lexer: WktLexer) returns (token: Token)
    requires lexer.Valid()
    modifies lexer
    ensures lexer.Valid() && old(lexer.position) <= lexer.position
    ensures token != WktAutomaton.Eof ==> old(lexer.position) < lexer.position
    ensures Ahead(lexer, token) == old(Tokens(lexer.text, lexer.position))
  {
    token := lexer.NextToken();
  }

  /** The points of one ring, up to its closing parenthesis; `first` is the first token of the ring. */
  method CheckPoints(lexer: WktLexer, first: Token) returns (ok: bool)
    requires lexer.Valid()
    modifies lexer
    ensures lexer.Valid() && old(lexer.position) <= lexer.position
    ensures ok <==> AfterPoints(old(Ahead(lexer, first))).Some?
    ensures ok ==> AfterPoints(old(Ahead(lexer, first))) == Some(Tokens(lexer.text, lexer.position))
  {
    ghost var ahead := Ahead(lexer, first);
    var token := first;
    while token != WktAutomaton.Eof && token != WktAutomaton.CloseParen
      invariant lexer.Valid() && old(lexer.position) <= lexer.position
      invariant AfterPoints(ahead) == AfterPoints(Ahead(lexer, token))
      decreases |lexer.text| - lexer.position
    {
      if token != WktAutomaton.Number {
        return false;
      }
      token := TakeToken(lexer);
      if token != WktAutomaton.Number {
        return false;
      }
      assert AfterPoints(ahead) == AfterPoint(Tokens(lexer.text, lexer.position));
      token := TakeToken(lexer);
      if token == WktAutomaton.Comma {
        token := TakeToken(lexer);
        if token != WktAutomaton.Number {
          return false;
        }
      }
    }
    ok := token == WktAutomaton.CloseParen;
  }

  /** One ring, from its opening parenthesis to the token after it. */
  method CheckRing(lexer: WktLexer, first: Token) returns (ok: bool, token: Token)
    requires lexer.Valid() && first != WktAutomaton.CloseParen
    modifies lexer
    ensures lexer.Valid() && (ok ==> old(lexer.position) < lexer.position)
    ensures CountRings(old(Ahead(lexer, first))) == if ok then OneMore(CountRings(Ahead(lexer, token))) else None
  {
    token := first;
    ok := false;
    if token != WktAutomaton.OpenParen {
      return;
    }
    token := TakeToken(lexer);
    ok := CheckPoints(lexer, token);
    if !ok {
      return;
    }
    token := TakeToken(lexer);
    if token == WktAutomaton.Comma {
      token := TakeToken(lexer);
      ok := token == WktAutomaton.OpenParen;
    }
  }

  method CheckRings(lexer: WktLexer) returns (rc: Error, numRings: nat)
    requires lexer.Valid()
    modifies lexer
    ensures CountRings(old(Tokens(lexer.text, lexer.position))) == if rc == Ok then Some(numRings) else None
    ensures rc != Ok ==> numRings == 0
  {
    numRings := 0;
    ghost var all := CountRings(Tokens(lexer.text, lexer.position));
    var token := TakeToken(lexer);
    ghost var left := CountRings(Ahead(lexer, token));
    while token != WktAutomaton.Eof && token != WktAutomaton.CloseParen
      invariant lexer.Valid() && left == CountRings(Ahead(lexer, token))
      invariant (all.Some? <==> left.Some?) && (all.Some? ==> all.value == numRings + left.value)
      decreases |lexer.text| - lexer.position
    {
      var ok: bool;
      ok, token := CheckRing(lexer, token);
      if !ok {
        return BadParams, 0;
      }
      left := CountRings(Ahead(lexer, token));
      numRings := numRings + 1;
    }
    if token != WktAutomaton.CloseParen {
      return BadParams, 0;
    }
    rc := Ok;
  }

  /** The body of reset_text up to the construction of the iterator. */
  method ScanText(text: string) returns (rc: Error, numRings: nat, iterates: bool)
    ensures Counted(Tokens(text, 0)) == if iterates then Some(numRings) else None
    ensures rc == Ok <==> iterates || IsEmpty(text)
    ensures !iterates ==> numRings == 0
  {
    numRings, iterates := 0, false;
    var lexer := new WktLexer(text, true);
    var token := TakeToken(lexer);
    if token != WktAutomaton.TypePolygon {
      return BadParams, numRings, iterates;
    }
    token := TakeToken(lexer);
    if token == WktAutomaton.Empty {
      return Ok, numRings, iterates;
    }
    if token != WktAutomaton.OpenParen {
      return BadParams, numRings, iterates;
    }
    rc, numRings := CheckRings(lexer);
    iterates := rc == Ok;
  }

  /**
   * reset_text: the text is accepted exactly when it starts with a polygon, and the rings are
   * counted; an empty polygon is accepted without an iterator.
   */
  method CheckText(text: string) returns (rc: Error, numRings: nat, iterates: bool)
    ensures iterates <==> exists rings :: HasRings(text, rings)
    ensures forall rings :: HasRings(text, rings) ==> numRings == |rings|
    ensures rc == Ok <==> iterates || IsEmpty(text)
    ensures !iterates ==> numRings == 0
  {
    rc, numRings, iterates := ScanText(text);
    RingsCounted(text);
  }
}

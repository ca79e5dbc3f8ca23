/** The tokens of a printed polygon, one step at a time. */
module PolygonTokens {
  import opened NL = NumberLexeme
  import opened WktTokens
  import WktAutomaton
  import opened WktLexers
  import opened Wkb

  /** Characters that follow a number in printed text. */
  predicate IsStop(c: char) { c == ' ' || c == ',' || c == ')' }

  /** From position i on the text is a pad and then s. */
  ghost predicate Upcoming(text: string, i: nat, s: string) {
    i <= |text| && (text[i..] == s || text[i..] == " " + s)
  }

  function Pad(text: string, i: nat, s: string): nat
    requires i <= |text|
  {
    if text[i..] == s then 0 else 1
  }

  /** Blanks are skipped up to the first character of what is coming. */
  lemma SkipPad(text: string, i: nat, s: string)
    requires Upcoming(text, i, s) && s != "" && !IsBlank(s[0])
    ensures var q := i + Pad(text, i, s);
            SkipBlanks(text, i) == q && q < |text| && text[q..] == s && text[q] == s[0]
  {
    var q := i + Pad(text, i, s);
    if text[i..] == s {
      assert text[i..][0] == text[i];
    } else {
      assert text[i..][0] == text[i] && text[i..][1] == text[i + 1];
      assert text[i + 1..] == text[i..][1..];
      assert SkipBlanks(text, i) == SkipBlanks(text, i + 1);
    }
  }

  lemma NumbersStop(st: State, c: char)
    requires IsStop(c)
    ensures Delta(st, c) == Dead
  {
  }

  lemma NumberStarts(lex: string)
    requires IsNumber(lex)
    ensures lex != "" && Delta(Start, lex[0]) != Dead && !IsBlank(lex[0])
  {
    RecogniserIsExact(lex);
    if lex != "" {
      if Delta(Start, lex[0]) == Dead {
        DeadForever(lex[1..]);
      }
    }
  }

  /** A number that the text does not continue is the token at its place. */
  lemma NumberAt(text: string, q: nat, lex: string, rest: string)
    requires q <= |text| && text[q..] == lex + rest && IsNumber(lex) && rest != "" && IsStop(rest[0])
    ensures q + |lex| < |text| && text[q..q + |lex|] == lex && text[q + |lex|..] == rest
    ensures TokenAt(text, q) == (WktAutomaton.Number, |lex|)
  {
    var p := q + |lex|;
    assert text[q..p] == text[q..][..|lex|] == lex;
    assert text[p..] == text[q..][|lex|..] == rest;
    assert text[p] == text[p..][0];
    NumberStarts(lex);
    assert text[q] == text[q..p][0];
    RecogniserIsExact(lex);
    NumbersStop(Run(Start, lex), text[p]);
    LongestWithin(text, q, p, |lex|);
    NotAWord(text, q);
  }

  lemma NumberToken(text: string, i: nat, lex: string, rest: string)
    requires Upcoming(text, i, lex + rest) && IsNumber(lex) && rest != "" && IsStop(rest[0])
    ensures var q := SkipBlanks(text, i);
            && NextToken(text, i) == (WktAutomaton.Number, q + |lex|)
            && q + |lex| <= |text| && text[q..q + |lex|] == lex && text[q + |lex|..] == rest
  {
    NumberStarts(lex);
    SkipPad(text, i, lex + rest);
    NumberAt(text, SkipBlanks(text, i), lex, rest);
  }

  lemma SpacedNumber(text: string, i: nat, lex: string, rest: string)
    requires i <= |text| && text[i..] == " " + (lex + rest) && IsNumber(lex) && rest != "" && IsStop(rest[0])
    ensures var q := SkipBlanks(text, i);
            && NextToken(text, i) == (WktAutomaton.Number, q + |lex|)
            && q + |lex| <= |text| && text[q..q + |lex|] == lex && text[q + |lex|..] == rest
  {
    NumberToken(text, i, lex, rest);
  }

  function PunctuationToken(c: char): Token {
    if c == '(' then WktAutomaton.OpenParen else if c == ')' then WktAutomaton.CloseParen else WktAutomaton.Comma
  }

  lemma PunctToken(text: string, i: nat, c: char, rest: string)
    requires Upcoming(text, i, [c] + rest) && (c == '(' || c == ')' || c == ',')
    ensures var q := SkipBlanks(text, i);
            NextToken(text, i) == (PunctuationToken(c), q + 1) && q + 1 <= |text| && text[q + 1..] == rest
  {
    SkipPad(text, i, [c] + rest);
    var q := SkipBlanks(text, i);
    PunctuationAt(text, q);
    assert text[q + 1..] == text[q..][1..];
  }

  lemma PolygonWord(text: string, rest: string)
    requires text == "POLYGON" + rest
    ensures NextToken(text, 0) == (WktAutomaton.TypePolygon, 7) && text[7..] == rest
  {
    assert text[0..7] == "POLYGON";
    NotThisWord(text, 0, "POINT", 2);
    NotThisWord(text, 0, "LINESTRING", 0);
    assert SkipBlanks(text, 0) == 0;
  }

  lemma EmptyWord(text: string)
    requires text == "POLYGON EMPTY"
    ensures NextToken(text, 7) == (WktAutomaton.Empty, 13)
  {
    assert SkipBlanks(text, 7) == SkipBlanks(text, 8) == 8;
    assert text[8..13] == "EMPTY";
    NotThisWord(text, 8, "POINT", 0);
    NotThisWord(text, 8, "LINESTRING", 0);
    NotThisWord(text, 8, "POLYGON", 0);
  }

  // ---------- what is left of the text at each point of the walk ----------

  /** After a ring's closing parenthesis. */
  function RingsTail(codec: Codec, rs: seq<Ring>): string {
    if rs == [] then ")" else ", " + (codec.RingsText(rs) + ")")
  }

  /** Inside a ring. */
  function PointsTail(codec: Codec, ps: seq<Point>, rs: seq<Ring>): string {
    codec.PointsText(ps) + (")" + RingsTail(codec, rs))
  }

  lemma RingsTextOpens(codec: Codec, rs: seq<Ring>)
    requires rs != []
    ensures codec.RingsText(rs) + ")" == "(" + PointsTail(codec, rs[0], rs[1..])
  {
    if |rs| == 1 {
      assert rs[1..] == [];
    }
  }

  /** The rest of a ring's points after the first. */
  function MorePoints(codec: Codec, ps: seq<Point>, rs: seq<Ring>): string {
    if ps == [] then ")" + RingsTail(codec, rs) else ", " + PointsTail(codec, ps, rs)
  }

  /** After the first number of a point. */
  function AfterX(codec: Codec, ps: seq<Point>, rs: seq<Ring>): string
    requires ps != []
  {
    " " + (codec.format(ps[0].y) + MorePoints(codec, ps[1..], rs))
  }

  lemma MorePointsStop(codec: Codec, ps: seq<Point>, rs: seq<Ring>)
    ensures MorePoints(codec, ps, rs) != "" && IsStop(MorePoints(codec, ps, rs)[0])
  {
  }

  lemma PointsTailSplits(codec: Codec, ps: seq<Point>, rs: seq<Ring>)
    requires ps != []
    ensures PointsTail(codec, ps, rs) == codec.format(ps[0].x) + AfterX(codec, ps, rs)
    ensures MorePoints(codec, ps[1..], rs) != "" && IsStop(MorePoints(codec, ps[1..], rs)[0])
  {
    var x, y, rest := codec.format(ps[0].x), codec.format(ps[0].y), ")" + RingsTail(codec, rs);
    if |ps| == 1 {
      assert ps[1..] == [];
      JoinOne(x, y, rest);
    } else {
      JoinMore(x, y, codec.PointsText(ps[1..]), rest);
    }
  }

  lemma JoinOne(x: string, y: string, rest: string)
    ensures (x + " " + y) + rest == x + (" " + (y + rest))
  {
  }

  lemma JoinMore(x: string, y: string, more: string, rest: string)
    ensures ((x + " " + y) + ", " + more) + rest == x + (" " + (y + (", " + (more + rest))))
  {
  }

  /** The token at the start of a ring or after a comma: a number, or an empty ring's parenthesis. */
  lemma FirstToken(text: string, i: nat, codec: Codec, ps: seq<Point>, rs: seq<Ring>)
    requires codec.Valid() && codec.AllFinite(ps) && Upcoming(text, i, PointsTail(codec, ps, rs))
    ensures var (t, j) := NextToken(text, i);
            var q := SkipBlanks(text, i);
            if ps == [] then t == WktAutomaton.CloseParen && text[j..] == RingsTail(codec, rs)
            else t == WktAutomaton.Number && text[q..j] == codec.format(ps[0].x) && text[j..] == AfterX(codec, ps, rs)
  {
    if ps == [] {
      assert PointsTail(codec, ps, rs) == [')'] + RingsTail(codec, rs);
      PunctToken(text, i, ')', RingsTail(codec, rs));
    } else {
      assert codec.Finite(ps[0]);
      PointsTailSplits(codec, ps, rs);
      NumberFirst(text, i, PointsTail(codec, ps, rs), codec.format(ps[0].x), AfterX(codec, ps, rs));
    }
  }

  lemma NumberFirst(text: string, i: nat, tail: string, lex: string, rest: string)
    requires Upcoming(text, i, tail) && tail == lex + rest && IsNumber(lex) && rest != "" && IsStop(rest[0])
    ensures var (t, j) := NextToken(text, i);
            t == WktAutomaton.Number && text[SkipBlanks(text, i)..j] == lex && text[j..] == rest
  {
    NumberToken(text, i, lex, rest);
  }

  lemma SecondToken(text: string, i: nat, codec: Codec, ps: seq<Point>, rs: seq<Ring>)
    requires ps != [] && IsNumber(codec.format(ps[0].y))
    requires i <= |text| && text[i..] == AfterX(codec, ps, rs)
    ensures var (t, j) := NextToken(text, i);
            var q := SkipBlanks(text, i);
            && t == WktAutomaton.Number && text[q..j] == codec.format(ps[0].y)
            && text[j..] == MorePoints(codec, ps[1..], rs)
  {
    var rest := MorePoints(codec, ps[1..], rs);
    MorePointsStop(codec, ps[1..], rs);
    AfterXSplits(codec, ps, rs, rest);
    SpacedNumber(text, i, codec.format(ps[0].y), rest);
  }

  lemma AfterXSplits(codec: Codec, ps: seq<Point>, rs: seq<Ring>, rest: string)
    requires ps != [] && rest == MorePoints(codec, ps[1..], rs)
    ensures AfterX(codec, ps, rs) == " " + (codec.format(ps[0].y) + rest)
  {
  }

  /** The token after a point: a comma before the next one, or the ring's closing parenthesis. */
  lemma SeparatorToken(text: string, i: nat, codec: Codec, ps: seq<Point>, rs: seq<Ring>)
    requires i <= |text| && text[i..] == MorePoints(codec, ps, rs)
    ensures var (t, j) := NextToken(text, i);
            if ps == [] then t == WktAutomaton.CloseParen && text[j..] == RingsTail(codec, rs)
            else t == WktAutomaton.Comma && Upcoming(text, j, PointsTail(codec, ps, rs))
  {
    if ps == [] {
      PunctToken(text, i, ')', RingsTail(codec, rs));
    } else {
      assert ", " + PointsTail(codec, ps, rs) == [','] + (" " + PointsTail(codec, ps, rs));
      PunctToken(text, i, ',', " " + PointsTail(codec, ps, rs));
    }
  }

  /** The token after a ring: a comma before the next one, or the polygon's closing parenthesis. */
  lemma RingSeparatorToken(text: string, i: nat, codec: Codec, rs: seq<Ring>)
    requires i <= |text| && text[i..] == RingsTail(codec, rs)
    ensures var (t, j) := NextToken(text, i);
            if rs == [] then t == WktAutomaton.CloseParen && j == |text|
            else t == WktAutomaton.Comma && Upcoming(text, j, codec.RingsText(rs) + ")")
  {
    if rs == [] {
      PunctToken(text, i, ')', "");
    } else {
      assert ", " + (codec.RingsText(rs) + ")") == [','] + (" " + (codec.RingsText(rs) + ")"));
      PunctToken(text, i, ',', " " + (codec.RingsText(rs) + ")"));
    }
  }

  lemma OpenRingToken(text: string, i: nat, codec: Codec, rs: seq<Ring>)
    requires rs != [] && Upcoming(text, i, codec.RingsText(rs) + ")")
    ensures var (t, j) := NextToken(text, i);
            t == WktAutomaton.OpenParen && text[j..] == PointsTail(codec, rs[0], rs[1..])
  {
    RingsTextOpens(codec, rs);
    PunctToken(text, i, '(', PointsTail(codec, rs[0], rs[1..]));
  }

  /** "POLYGON (" before the rings. */
  lemma PolygonOpens(text: string, codec: Codec, rs: seq<Ring>)
    requires rs != [] && text == codec.PolygonText(rs)
    ensures NextToken(text, 0) == (WktAutomaton.TypePolygon, 7)
    ensures NextToken(text, 7) == (WktAutomaton.OpenParen, 9) && text[9..] == codec.RingsText(rs) + ")"
  {
    WordThenParen(text, codec.RingsText(rs) + ")");
  }

  lemma WordThenParen(text: string, inner: string)
    requires text == "POLYGON (" + inner
    ensures NextToken(text, 0) == (WktAutomaton.TypePolygon, 7)
    ensures NextToken(text, 7) == (WktAutomaton.OpenParen, 9) && text[9..] == inner
  {
    assert text == "POLYGON" + (" (" + inner);
    PolygonWord(text, " (" + inner);
    assert text[7..] == " " + (['('] + inner);
    PunctToken(text, 7, '(', inner);
    assert |text| == 9 + |inner|;
  }

  // ---------- single calls of next_token on printed text ----------

  ghost predicate Numeric(codec: Codec, ps: seq<Point>) { codec.Valid() && codec.AllFinite(ps) }

  method TakeFirst(lexer: WktLexer, ghost codec: Codec, ghost ps: seq<Point>, ghost rs: seq<Ring>)
    returns (token: Token)
    requires lexer.Valid()
    requires Numeric(codec, ps) && Upcoming(lexer.text, lexer.position, PointsTail(codec, ps, rs))
    modifies lexer
    ensures lexer.Valid()
    ensures ps == [] ==>
              token == WktAutomaton.CloseParen && lexer.text[lexer.position..] == RingsTail(codec, rs)
    ensures ps != [] ==>
              && token == WktAutomaton.Number && lexer.text[lexer.position..] == AfterX(codec, ps, rs)
              && (!lexer.skipNumber ==> lexer.lexeme == codec.format(ps[0].x))
  {
    FirstToken(lexer.text, lexer.position, codec, ps, rs);
    token := lexer.NextToken();
  }

  method TakeSecond(lexer: WktLexer, ghost codec: Codec, ghost ps: seq<Point>, ghost rs: seq<Ring>)
    returns (token: Token)
    requires lexer.Valid()
    requires ps != [] && Numeric(codec, ps) && lexer.text[lexer.position..] == AfterX(codec, ps, rs)
    modifies lexer
    ensures lexer.Valid()
    ensures token == WktAutomaton.Number && lexer.text[lexer.position..] == MorePoints(codec, ps[1..], rs)
    ensures !lexer.skipNumber ==> lexer.lexeme == codec.format(ps[0].y)
  {
    assert codec.Finite(ps[0]);
    SecondToken(lexer.text, lexer.position, codec, ps, rs);
    token := lexer.NextToken();
  }

  method TakeSeparator(lexer: WktLexer, ghost codec: Codec, ghost ps: seq<Point>, ghost rs: seq<Ring>)
    returns (token: Token)
    requires lexer.Valid()
    requires lexer.text[lexer.position..] == MorePoints(codec, ps, rs)
    modifies lexer
    ensures lexer.Valid()
    ensures ps == [] ==>
              token == WktAutomaton.CloseParen && lexer.text[lexer.position..] == RingsTail(codec, rs)
    ensures ps != [] ==>
              token == WktAutomaton.Comma && Upcoming(lexer.text, lexer.position, PointsTail(codec, ps, rs))
  {
    SeparatorToken(lexer.text, lexer.position, codec, ps, rs);
    token := lexer.NextToken();
  }

  method TakeRingSeparator(lexer: WktLexer, ghost codec: Codec, ghost rs: seq<Ring>)
    returns (token: Token)
    requires lexer.Valid()
    requires lexer.text[lexer.position..] == RingsTail(codec, rs)
    modifies lexer
    ensures lexer.Valid()
    ensures rs == [] ==> token == WktAutomaton.CloseParen && lexer.position == |lexer.text|
    ensures rs != [] ==>
              token == WktAutomaton.Comma && Upcoming(lexer.text, lexer.position, codec.RingsText(rs) + ")")
  {
    RingSeparatorToken(lexer.text, lexer.position, codec, rs);
    token := lexer.NextToken();
  }
}

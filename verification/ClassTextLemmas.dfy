/**
 * Reading class names that were put together from parts: what the functions of
 * `ClassText` make of a name with arguments that stands in a longer text.
 */
module ClassTextLemmas {
  import opened Options
  import opened ParserBase
  import opened TextPlaces
  import opened ClassText
  import opened ClassNames
  import opened ClassSlices

  // Parentheses

  /** The parentheses open after a text that never closes the outermost one. */
  function Level(open: int, p: string): Option<int>
    decreases |p|
  {
    if p == "" then Some(open)
    else
      var after := if p[0] == '(' then open + 1 else if p[0] == ')' then open - 1 else open;
      if after <= 0 then None else Level(after, p[1..])
  }

  lemma {:induction false} LevelConcat(open: int, p: string, q: string)
    requires Level(open, p).Some?
    ensures Level(open, p + q) == Level(Level(open, p).value, q)
    decreases |p|
  {
    if p == "" {
      assert p + q == q;
    } else {
      assert (p + q)[1..] == p[1..] + q;
      LevelConcat(if p[0] == '(' then open + 1 else if p[0] == ')' then open - 1 else open, p[1..], q);
    }
  }

  lemma {:induction false} ClosingLevel(s: string, i: nat, p: string, open: nat, after: nat)
    requires open > 0 && Here(s, i, p) && Level(open, p) == Some(after)
    ensures Closing(s, i, open) == Closing(s, i + |p|, after)
    decreases |p|
  {
    if p != "" {
      HereAt(s, i, p);
      HereTail(s, i, p, 1);
      ClosingLevel(s, i + 1, p[1..], if p[0] == '(' then open + 1 else if p[0] == ')' then open - 1 else open, after);
    }
  }

  /** A text that leaves the count of open parentheses as it was, wherever it stands. */
  ghost predicate Balanced(p: string) {
    forall open: int {:trigger Level(open, p)} :: open > 0 ==> Level(open, p) == Some(open)
  }

  lemma BalancedConcat(p: string, q: string)
    requires Balanced(p) && Balanced(q)
    ensures Balanced(p + q)
  {
    forall open: int | open > 0
      ensures Level(open, p + q) == Some(open)
    {
      LevelConcat(open, p, q);
    }
  }

  lemma {:induction false} PlainLevel(open: int, p: string)
    requires open > 0 && forall k :: 0 <= k < |p| ==> p[k] != '(' && p[k] != ')'
    ensures Level(open, p) == Some(open)
    decreases |p|
  {
    if p != "" {
      PlainLevel(open, p[1..]);
    }
  }

  lemma PlainBalanced(p: string)
    requires forall k :: 0 <= k < |p| ==> p[k] != '(' && p[k] != ')'
    ensures Balanced(p)
  {
    forall open: int | open > 0
      ensures Level(open, p) == Some(open)
    {
      PlainLevel(open, p);
    }
  }

  lemma EnclosedBalanced(p: string)
    requires Balanced(p)
    ensures Balanced("(" + p + ")")
  {
    forall open: int | open > 0
      ensures Level(open, "(" + p + ")") == Some(open)
    {
      calc {
        Level(open, "(" + p + ")");
        { assert "(" + p + ")" == "(" + (p + ")"); assert ("(" + (p + ")"))[1..] == p + ")"; }
        Level(open + 1, p + ")");
        { assert Level(open + 1, p) == Some(open + 1); LevelConcat(open + 1, p, ")"); }
        Level(open + 1, ")");
        { assert ")"[1..] == ""; }
        Some(open);
      }
    }
  }

  // Parts

  /** A name, and what stands in parentheses after it when anything does. */
  datatype Part = Part(name: string, inside: Option<string>) {
    function Text(): string {
      name + Suffix(inside)
    }

    ghost predicate Readable() {
      IsIdentifier(name) && name != "" && (inside.Some? ==> Balanced(inside.value))
    }
  }

  function Suffix(inside: Option<string>): string {
    match inside
    case None => ""
    case Some(p) => "(" + p + ")"
  }

  lemma IdentifierBalanced(n: string)
    requires IsIdentifier(n)
    ensures Balanced(n)
  {
    assert forall k :: 0 <= k < |n| ==> IsIdentifierChar(n[k]);
    PlainBalanced(n);
  }

  lemma PartBalanced(p: Part)
    requires p.Readable()
    ensures Balanced(p.Text())
  {
    IdentifierBalanced(p.name);
    match p.inside
    case None => assert p.Text() == p.name;
    case Some(inside) =>
      EnclosedBalanced(inside);
      BalancedConcat(p.name, "(" + inside + ")");
  }

  /** A part is over: a comma or a closing parenthesis follows. */
  predicate Over(s: string, i: nat) {
    i < |s| && (s[i] == ',' || s[i] == ')')
  }

  lemma CloseHere(s: string, i: nat)
    requires i < |s| && s[i] == ')'
    ensures Closing(s, i, 1) == Some(i + 1)
  {
  }

  lemma EnclosedRead(s: string, i: nat, p: string)
    requires Here(s, i, "(" + p + ")") && Balanced(p)
    ensures i < |s| && s[i] == '(' && Closing(s, i + 1, 1) == Some(i + |p| + 2)
  {
    var end := i + 1 + |p|;
    EnclosedHere(s, i, p, end);
    BalancedCloses(s, i + 1, p, end);
  }

  lemma EnclosedHere(s: string, i: nat, p: string, end: nat)
    requires Here(s, i, "(" + p + ")") && end == i + 1 + |p|
    ensures end < |s| && s[i] == '(' && Here(s, i + 1, p) && s[end] == ')'
  {
    assert "(" + p + ")" == "(" + (p + ")");
    HereSplit(s, i, "(", p + ")");
    HereSplit(s, i + 1, p, ")");
    HereAt(s, i, "(");
    HereAt(s, end, ")");
  }

  lemma BalancedCloses(s: string, i: nat, p: string, end: nat)
    requires Here(s, i, p) && end == i + |p| && end < |s| && s[end] == ')' && Balanced(p)
    ensures Closing(s, i, 1) == Some(end + 1)
  {
    assert Level(1, p) == Some(1);
    ClosingLevel(s, i, p, 1, 1);
    CloseHere(s, end);
  }

  lemma SuffixRead(s: string, i: nat, inside: Option<string>)
    requires Here(s, i, Suffix(inside)) && Over(s, i + |Suffix(inside)|)
    requires inside.Some? ==> Balanced(inside.value)
    ensures RawArguments(s, i) == Some(i + |Suffix(inside)|)
    ensures i < |s| && SkipBlank(s, i) == i && !IsIdentifierChar(s[i])
  {
    if inside.Some? {
      EnclosedRead(s, i, inside.value);
    }
  }

  lemma IdentifierRead(s: string, i: nat, n: string, end: nat)
    requires Here(s, i, n) && IsIdentifier(n) && n != "" && end == i + |n|
    requires end == |s| || (end < |s| && !IsIdentifierChar(s[end]))
    ensures i < |s| && SkipBlank(s, i) == i && IdentifierEnd(s, i) == end && s[i] == n[0] && IsIdentifierChar(s[i])
  {
    HereAt(s, i, n);
    assert IsIdentifierChar(n[0]);
    IdentifierTail(s, i, n);
  }

  lemma {:induction false} IdentifierTail(s: string, i: nat, n: string)
    requires Here(s, i, n) && IsIdentifier(n)
    requires i + |n| == |s| || (i + |n| < |s| && !IsIdentifierChar(s[i + |n|]))
    ensures IdentifierEnd(s, i) == i + |n|
    decreases |n|
  {
    if n != "" {
      HereAt(s, i, n);
      HereTail(s, i, n, 1);
      IdentifierTail(s, i + 1, n[1..]);
    }
  }

  lemma ReadOneIs(s: string, i: nat, end: nat, next: nat)
    requires SkipBlank(s, i) == i && IdentifierEnd(s, i) == end && SkipBlank(s, end) == end && end <= |s|
    requires RawArguments(s, end) == Some(next) && i <= end <= next
    ensures ReadOne(s, i) == Some(Piece(s[i..end], end, next))
  {
  }

  /** Where a part starts, there is neither a blank nor a comma nor a parenthesis. */
  predicate Starts(s: string, i: nat) {
    i < |s| && IsIdentifierChar(s[i])
  }

  /** A part is read back in full, and the piece that stands for it is the part. */
  lemma PartRead(s: string, i: nat, p: Part)
    requires p.Readable() && Here(s, i, p.Text()) && Over(s, i + |p.Text()|)
    ensures Starts(s, i)
    ensures var piece := Piece(p.name, i + |p.name|, i + |p.Text()|);
      ReadOne(s, i) == Some(piece) && StandsFor(s, piece, p)
  {
    var end := i + |p.name|;
    HereSplit(s, i, p.name, Suffix(p.inside));
    SuffixRead(s, end, p.inside);
    IdentifierRead(s, i, p.name, end);
    ReadOneIs(s, i, end, i + |p.Text()|);
    if p.inside.Some? {
      EnclosedRead(s, end, p.inside.value);
    }
  }

  // Lists of parts

  function Joined(parts: seq<Part>): string {
    if parts == [] then ""
    else if |parts| == 1 then parts[0].Text()
    else parts[0].Text() + "," + Joined(parts[1..])
  }

  ghost predicate AllReadable(parts: seq<Part>) {
    forall k :: 0 <= k < |parts| ==> parts[k].Readable()
  }

  lemma {:induction false} JoinedBalanced(parts: seq<Part>)
    requires AllReadable(parts)
    ensures Balanced(Joined(parts))
    decreases |parts|
  {
    if parts == [] {
      PlainBalanced("");
    } else {
      PartBalanced(parts[0]);
      JoinedBalanced(parts[1..]);
      PlainBalanced(",");
      BalancedConcat(parts[0].Text(), ",");
      BalancedConcat(parts[0].Text() + ",", Joined(parts[1..]));
    }
  }

  /** The pieces read are those of the parts, in order. */
  ghost predicate Stand(s: string, pieces: seq<Piece>, parts: seq<Part>) {
    |pieces| == |parts| && forall k :: 0 <= k < |parts| ==> StandsFor(s, pieces[k], parts[k])
  }

  ghost predicate StandsFor(s: string, piece: Piece, p: Part) {
    piece.In(s) && piece.Core(s) == p.Text()
  }

  lemma StandCons(s: string, piece: Piece, p: Part, pieces: seq<Piece>, parts: seq<Part>)
    requires StandsFor(s, piece, p) && Stand(s, pieces, parts)
    ensures Stand(s, [piece] + pieces, [p] + parts)
  {
    ConsAll(pieces, parts, piece, p);
  }

  lemma ConsAll<A, B>(a: seq<A>, b: seq<B>, x: A, y: B)
    requires |a| == |b|
    ensures forall k :: 0 < k <= |a| ==> ([x] + a)[k] == a[k - 1] && ([y] + b)[k] == b[k - 1]
  {
  }

  lemma PiecesStep(s: string, i: nat, piece: Piece)
    requires 0 < i && Starts(s, i) && ReadOne(s, i) == Some(piece) && i < piece.end
    ensures ReadPieces(s, i) == Pieces(ReadPieces(s, piece.end).ok, [piece] + ReadPieces(s, piece.end).list)
  {
    assert SkipBlankAndComma(s, i, false) == Skipped(true, i);
  }

  lemma PiecesAfterComma(s: string, i: nat, next: nat)
    requires 0 < i && next == i + 1 && i < |s| && s[i] == ',' && Starts(s, next)
    ensures ReadPieces(s, i) == ReadPieces(s, next)
  {
    assert SkipBlankAndComma(s, i, false) == SkipBlankAndComma(s, next, true) == Skipped(true, next);
    assert SkipBlankAndComma(s, next, false) == Skipped(true, next);
  }

  lemma PiecesEnd(s: string, i: nat)
    requires 0 < i < |s| && s[i] == ')'
    ensures ReadPieces(s, i) == Pieces(true, [])
  {
  }

  lemma {:induction false} PiecesRead(s: string, i: nat, parts: seq<Part>)
    requires 0 < i && AllReadable(parts) && Here(s, i, Joined(parts) + ")")
    ensures ReadPieces(s, i).ok && Stand(s, ReadPieces(s, i).list, parts)
    ensures parts != [] ==> Starts(s, i)
    decreases |parts|
  {
    if parts == [] {
      HereAt(s, i, Joined(parts) + ")");
      PiecesEnd(s, i);
    } else if |parts| == 1 {
      LastPieceRead(s, i, parts[0]);
      assert parts == [parts[0]];
    } else {
      var rest, next := Joined(parts[1..]), i + |parts[0].Text()| + 1;
      RestHere(s, i, parts[0].Text(), rest);
      PiecesRead(s, next, parts[1..]);
      FirstPieceRead(s, i, rest, next, parts);
    }
  }

  lemma LastPieceRead(s: string, i: nat, p: Part)
    requires 0 < i && p.Readable() && Here(s, i, p.Text() + ")")
    ensures ReadPieces(s, i).ok && Stand(s, ReadPieces(s, i).list, [p]) && Starts(s, i)
  {
    var end := i + |p.Text()|;
    HereSplit(s, i, p.Text(), ")");
    HereAt(s, end, ")");
    PartRead(s, i, p);
    var piece := Piece(p.name, i + |p.name|, end);
    PiecesStep(s, i, piece);
    PiecesEnd(s, end);
    StandCons(s, piece, p, [], []);
  }

  lemma CommaHere(s: string, i: nat, text: string, rest: string)
    requires Here(s, i, text + "," + rest + ")")
    ensures Here(s, i, text) && i + |text| < |s| && s[i + |text|] == ',' && Here(s, i + |text| + 1, rest + ")")
  {
    assert text + "," + rest + ")" == text + ("," + (rest + ")"));
    HereSplit(s, i, text, "," + (rest + ")"));
    HereSplit(s, i + |text|, ",", rest + ")");
    HereAt(s, i + |text|, ",");
  }

  lemma RestHere(s: string, i: nat, text: string, rest: string)
    requires Here(s, i, text + "," + rest + ")")
    ensures Here(s, i + |text| + 1, rest + ")")
  {
    CommaHere(s, i, text, rest);
  }

  lemma FirstPieceRead(s: string, i: nat, rest: string, next: nat, parts: seq<Part>)
    requires 0 < i && parts != [] && parts[0].Readable()
    requires Here(s, i, parts[0].Text() + "," + rest + ")") && next == i + |parts[0].Text()| + 1
    requires Starts(s, next) && ReadPieces(s, next).ok && Stand(s, ReadPieces(s, next).list, parts[1..])
    ensures ReadPieces(s, i).ok && Stand(s, ReadPieces(s, i).list, parts) && Starts(s, i)
  {
    var p := parts[0];
    var end := i + |p.Text()|;
    CommaHere(s, i, p.Text(), rest);
    PartRead(s, i, p);
    var piece := Piece(p.name, i + |p.name|, end);
    PiecesStep(s, i, piece);
    PiecesAfterComma(s, end, next);
    StandFirst(s, piece, ReadPieces(s, next).list, parts);
  }

  lemma StandFirst(s: string, piece: Piece, pieces: seq<Piece>, parts: seq<Part>)
    requires parts != [] && StandsFor(s, piece, parts[0]) && Stand(s, pieces, parts[1..])
    ensures Stand(s, [piece] + pieces, parts)
  {
    StandCons(s, piece, parts[0], pieces, parts[1..]);
    assert parts == [parts[0]] + parts[1..];
  }

  // The head of a part that is a text of its own

  lemma OwnHead(p: Part)
    requires p.Readable()
    ensures FirstEnd(p.Text()) == |p.name| && FirstName(p.Text()) == p.name
    ensures p.inside.Some? ==> Complete(p.Text())
  {
    var s := p.Text();
    assert s[0..|s|] == s;
    assert Here(s, 0, p.name + Suffix(p.inside));
    HereSplit(s, 0, p.name, Suffix(p.inside));
    if p.inside.Some? {
      EnclosedRead(s, |p.name|, p.inside.value);
    }
    IdentifierRead(s, 0, p.name, |p.name|);
  }

  lemma OwnParams(p: Part, parts: seq<Part>)
    requires p.Readable() && AllReadable(parts) && p.inside == Some(Joined(parts))
    ensures TypeParams(p.Text(), |p.name|).ok && Stand(p.Text(), TypeParams(p.Text(), |p.name|).list, parts)
  {
    var s, end := p.Text(), |p.name|;
    assert s == p.name + ("(" + (Joined(parts) + ")"));
    assert s[0..|s|] == s;
    HereSplit(s, 0, p.name, "(" + (Joined(parts) + ")"));
    HereSplit(s, end, "(", Joined(parts) + ")");
    HereAt(s, end, "(");
    PiecesRead(s, end + 1, parts);
    ParamsAre(s, end);
  }

  lemma ParamsAre(s: string, end: nat)
    requires end < |s| && s[end] == '('
    ensures TypeParams(s, end) == ReadPieces(s, end + 1)
  {
  }
}

/**
 * What the class-name parser reads (`DataTypeClassNameParser::Parser`,
 * `data_type_parser.cpp:475-634`), as functions of a text and a position.
 */
module ClassText {
  import opened Options
  import opened ParserBase

  function IdentifierEnd(s: string, i: nat): (r: nat)
    ensures i <= r && (i <= |s| ==> r <= |s|)
    ensures |s| < i ==> r == i
    ensures r < |s| ==> !IsIdentifierChar(s[r])
    decreases |s| - i
  {
    if i < |s| && IsIdentifierChar(s[i]) then IdentifierEnd(s, i + 1) else i
  }

  lemma {:induction false} IdentifierChars(s: string, i: nat, k: nat)
    requires i <= k < IdentifierEnd(s, i)
    ensures k < |s| && IsIdentifierChar(s[k])
    decreases |s| - i
  {
    if i < k {
      IdentifierChars(s, i + 1, k);
    }
  }

  predicate IsIdentifier(s: string) {
    forall k :: 0 <= k < |s| ==> IsIdentifierChar(s[k])
  }

  lemma IdentifierSlice(s: string, i: nat)
    ensures IsIdentifier(Slice(s, i, IdentifierEnd(s, i)))
  {
    var end := IdentifierEnd(s, i);
    forall k | 0 <= k < |Slice(s, i, end)|
      ensures IsIdentifierChar(Slice(s, i, end)[k])
    {
      IdentifierChars(s, i, i + k);
    }
  }

  /** The characters from `i` to `j`, none where the position is past the end. */
  function Slice(s: string, i: nat, j: nat): (r: string)
    ensures i <= j ==> |r| <= j - i
  {
    if i <= j <= |s| then s[i..j] else ""
  }

  /** The position after the parenthesis that closes the last of `open` open ones. */
  function Closing(s: string, i: nat, open: nat): (r: Option<nat>)
    ensures r.Some? ==> i < r.value <= |s|
    decreases |s| - i
  {
    if i >= |s| then None
    else if s[i] == '(' then Closing(s, i + 1, open + 1)
    else if s[i] != ')' then Closing(s, i + 1, open)
    else if open <= 1 then Some(i + 1)
    else Closing(s, i + 1, open - 1)
  }

  /** A name and where its arguments stand: from their `(` at `start` to just after their `)`. */
  datatype Piece = Piece(name: string, start: nat, end: nat) {
    predicate Bare() {
      start == end
    }

    predicate In(s: string) {
      && IsIdentifier(name)
      && (!Bare() ==> start < end <= |s| && s[start] == '(' && Closing(s, start + 1, 1) == Some(end))
    }

    /** The name with exactly its arguments. */
    function Core(s: string): string
      requires In(s)
    {
      if Bare() then name else name + s[start..end]
    }

    /**
     * The name with the arguments as the original cuts them out of the text: it
     * passes the end of the arguments where their length is asked for.
     */
    function Long(s: string): string
      requires In(s)
    {
      name + LongSlice(s, start, end)
    }

    function Text(s: string, exact: bool): string
      requires In(s)
    {
      if exact then Core(s) else Long(s)
    }
  }

  /** What `substr(i, j)` takes of a text: from `i`, and up to `j` characters of it. */
  function LongSlice(s: string, i: nat, j: nat): string
    requires i < j ==> j <= |s|
  {
    if i >= j then "" else s[i..Least(i + j, |s|)]
  }

  function Least(a: nat, b: nat): nat {
    if a < b then a else b
  }

  /** The end of the raw arguments that start at `i`, which is past any blanks. */
  function RawArguments(s: string, i: nat): (r: Option<nat>)
    ensures r.Some? ==> i <= r.value
    ensures r.Some? && r.value != i ==> i < r.value <= |s| && s[i] == '(' && Closing(s, i + 1, 1) == r
    ensures r.Some? && i < |s| && s[i] != ')' && s[i] != ',' ==> i < r.value
  {
    if i >= |s| || s[i] == ')' || s[i] == ',' then Some(i)
    else if s[i] != '(' then None
    else Closing(s, i + 1, 1)
  }

  function ReadOne(s: string, i: nat): (r: Option<Piece>)
    ensures r.Some? ==> r.value.In(s) && i + |r.value.name| <= r.value.start <= r.value.end
    ensures r.Some? && i < |s| && !IsBlank(s[i]) && s[i] != ')' && s[i] != ',' ==> i < r.value.end
  {
    var start := SkipBlank(s, i);
    var end := IdentifierEnd(s, start);
    var raw := SkipBlank(s, end);
    match RawArguments(s, raw)
    case None => None
    case Some(next) =>
      IdentifierSlice(s, start);
      Some(Piece(Slice(s, start, end), raw, next))
  }

  /** A piece with something before it, so that its text is shorter than the whole. */
  predicate Within(s: string, p: Piece) {
    p.In(s) && (if p.Bare() then |p.name| < |s| else |p.name| < p.start)
  }

  lemma ShorterText(s: string, p: Piece, exact: bool)
    requires Within(s, p)
    ensures |p.Text(s, exact)| < |s|
  {
  }

  /** The pieces read, and whether the closing parenthesis was reached. */
  datatype Pieces = Pieces(ok: bool, list: seq<Piece>)

  function ReadPieces(s: string, i: nat): (r: Pieces)
    requires 0 < i
    ensures forall k :: 0 <= k < |r.list| ==> Within(s, r.list[k])
    decreases |s| - i
  {
    var skipped := SkipBlankAndComma(s, i, false);
    if !skipped.more then Pieces(false, [])
    else if s[skipped.next] == ')' then Pieces(true, [])
    else
      match ReadOne(s, skipped.next)
      case None => Pieces(false, [])
      case Some(p) =>
        var rest := ReadPieces(s, p.end);
        Pieces(rest.ok, [p] + rest.list)
  }

  function TypeParams(s: string, i: nat): (r: Pieces)
    ensures forall k :: 0 <= k < |r.list| ==> Within(s, r.list[k])
  {
    if i >= |s| then Pieces(true, [])
    else if s[i] != '(' then Pieces(false, [])
    else ReadPieces(s, i + 1)
  }

  // Hexadecimal names

  function HexValue(c: char): (r: int)
    ensures -1 <= r < 16
  {
    if '0' <= c <= '9' then c as int - '0' as int
    else if 'A' <= c <= 'F' then c as int - 'A' as int + 10
    else if 'a' <= c <= 'f' then c as int - 'a' as int + 10
    else -1
  }

  predicate IsHex(h: string) {
    |h| % 2 == 0 && forall k :: 0 <= k < |h| ==> HexValue(h[k]) >= 0
  }

  function ByteAt(h: string, i: nat): char
    requires 2 * i + 1 < |h| && HexValue(h[2 * i]) >= 0 && HexValue(h[2 * i + 1]) >= 0
  {
    (16 * HexValue(h[2 * i]) + HexValue(h[2 * i + 1])) as char
  }

  function FromHex(h: string): Option<string> {
    if IsHex(h) then Some(seq(|h| / 2, i requires 0 <= i < |h| / 2 => ByteAt(h, i))) else None
  }

  // The fields of a user type

  datatype FieldPiece = FieldPiece(name: string, piece: Piece)

  datatype FieldPieces = FieldPieces(ok: bool, list: seq<FieldPiece>)

  function AfterColon(s: string, colon: nat): (r: nat)
    ensures colon < r
  {
    SkipBlank(s, colon + 1)
  }

  /** One `name:type` from `i`, which is past any blanks. */
  function ReadField(s: string, i: nat): (r: Option<FieldPiece>)
    requires 0 < i < |s|
    ensures r.Some? ==> i < r.value.piece.end && Within(s, r.value.piece)
  {
    var end := IdentifierEnd(s, i);
    var colon := SkipBlank(s, end);
    var hex := FromHex(s[i..end]);
    if hex.None? || At(s, colon) != ':' then None
    else
      match ReadOne(s, AfterColon(s, colon))
      case None => None
      case Some(p) => Some(FieldPiece(hex.value, p))
  }

  function ReadFields(s: string, i: nat): (r: FieldPieces)
    requires 0 < i
    ensures forall k :: 0 <= k < |r.list| ==> Within(s, r.list[k].piece)
    decreases |s| - i
  {
    var skipped := SkipBlankAndComma(s, i, false);
    if !skipped.more then FieldPieces(false, [])
    else if s[skipped.next] == ')' then FieldPieces(true, [])
    else
      match ReadField(s, skipped.next)
      case None => FieldPieces(false, [])
      case Some(f) =>
        var rest := ReadFields(s, f.piece.end);
        FieldPieces(rest.ok, [f] + rest.list)
  }
}

/**
 * The over-long slice that the class-name parser takes of nested arguments is
 * harmless but for one place: what is parsed is what the text says, whatever
 * follows a complete class name, exactly when no user type in it has a keyspace
 * with arguments.
 */
module ClassSlices {
  import opened Options
  import opened DataTypes
  import opened ParserBase
  import opened ClassText
  import opened ClassNames

  /** A name with arguments whose closing parenthesis ends the text. */
  predicate Complete(s: string) {
    var end := FirstEnd(s);
    end < |s| && s[end] == '(' && Inside(s, end + 1)
  }

  /** The text closes its outermost parenthesis, open at `i`, with its last character. */
  predicate Inside(s: string, i: nat) {
    i < |s| && Closing(s, i, 1) == Some(|s|)
  }

  // Reading the same text with more behind it

  lemma {:induction false} BlankInside(s: string, junk: string, i: nat)
    requires Inside(s, i)
    ensures Inside(s, SkipBlank(s, i)) && SkipBlank(s + junk, i) == SkipBlank(s, i)
    decreases |s| - i
  {
    assert (s + junk)[i] == s[i];
    if IsBlank(s[i]) {
      BlankInside(s, junk, i + 1);
    }
  }

  lemma {:induction false} CommaInside(s: string, junk: string, i: nat, comma: bool)
    requires Inside(s, i)
    ensures SkipBlankAndComma(s, i, comma).more && Inside(s, SkipBlankAndComma(s, i, comma).next)
    ensures SkipBlankAndComma(s + junk, i, comma) == SkipBlankAndComma(s, i, comma)
    decreases |s| - i
  {
    assert (s + junk)[i] == s[i];
    if s[i] == ',' && !comma {
      CommaInside(s, junk, i + 1, true);
    } else if IsBlank(s[i]) {
      CommaInside(s, junk, i + 1, comma);
    }
  }

  lemma {:induction false} IdentifierInside(s: string, junk: string, i: nat)
    requires Inside(s, i)
    ensures Inside(s, IdentifierEnd(s, i)) && IdentifierEnd(s + junk, i) == IdentifierEnd(s, i)
    decreases |s| - i
  {
    assert (s + junk)[i] == s[i];
    if IsIdentifierChar(s[i]) {
      IdentifierInside(s, junk, i + 1);
    }
  }

  lemma {:induction false} ClosingSame(s: string, junk: string, i: nat, open: nat)
    requires Closing(s, i, open).Some?
    ensures Closing(s + junk, i, open) == Closing(s, i, open)
    decreases |s| - i
  {
    assert (s + junk)[i] == s[i];
    if s[i] == '(' {
      ClosingSame(s, junk, i + 1, open + 1);
    } else if s[i] != ')' {
      ClosingSame(s, junk, i + 1, open);
    } else if open > 1 {
      ClosingSame(s, junk, i + 1, open - 1);
    }
  }

  /** Closing one parenthesis more means closing the inner ones first. */
  lemma {:induction false} ClosingSplit(s: string, i: nat, open: nat)
    requires open >= 1 && Closing(s, i, open + 1).Some?
    ensures Closing(s, i, open).Some?
    ensures Closing(s, Closing(s, i, open).value, 1) == Closing(s, i, open + 1)
    decreases |s| - i
  {
    if s[i] == '(' {
      ClosingSplit(s, i + 1, open + 1);
    } else if s[i] != ')' {
      ClosingSplit(s, i + 1, open);
    } else if open > 1 {
      ClosingSplit(s, i + 1, open - 1);
    }
  }

  lemma ArgumentsInside(s: string, junk: string, i: nat)
    requires Inside(s, i)
    ensures RawArguments(s + junk, i) == RawArguments(s, i)
    ensures RawArguments(s, i).Some? ==> Inside(s, RawArguments(s, i).value)
  {
    assert (s + junk)[i] == s[i];
    if s[i] == '(' {
      ClosingSplit(s, i + 1, 1);
      ClosingSame(s, junk, i + 1, 1);
    }
  }

  lemma SliceSame(s: string, junk: string, i: nat, j: nat)
    requires i <= j <= |s|
    ensures Slice(s + junk, i, j) == s[i..j]
  {
  }

  lemma OneInside(s: string, junk: string, i: nat)
    requires Inside(s, i)
    ensures ReadOne(s + junk, i) == ReadOne(s, i)
    ensures ReadOne(s, i).Some? ==> Inside(s, ReadOne(s, i).value.end)
  {
    var start := SkipBlank(s, i);
    var end := IdentifierEnd(s, start);
    BlankInside(s, junk, i);
    IdentifierInside(s, junk, start);
    BlankInside(s, junk, end);
    ArgumentsInside(s, junk, SkipBlank(s, end));
    SliceSame(s, junk, start, end);
  }

  lemma {:induction false} PiecesInside(s: string, junk: string, i: nat)
    requires 0 < i && Inside(s, i)
    ensures ReadPieces(s + junk, i) == ReadPieces(s, i)
    decreases |s| - i
  {
    CommaInside(s, junk, i, false);
    var next := SkipBlankAndComma(s, i, false).next;
    assert (s + junk)[next] == s[next];
    if s[next] != ')' {
      OneInside(s, junk, next);
      if ReadOne(s, next).Some? {
        PiecesInside(s, junk, ReadOne(s, next).value.end);
      }
    }
  }

  lemma FieldInside(s: string, junk: string, i: nat)
    requires 0 < i && Inside(s, i)
    ensures ReadField(s + junk, i) == ReadField(s, i)
    ensures ReadField(s, i).Some? ==> Inside(s, ReadField(s, i).value.piece.end)
  {
    var end := IdentifierEnd(s, i);
    var colon := SkipBlank(s, end);
    IdentifierInside(s, junk, i);
    SliceSame(s, junk, i, end);
    BlankInside(s, junk, end);
    assert At(s + junk, colon) == At(s, colon);
    if At(s, colon) == ':' {
      BlankInside(s, junk, colon + 1);
      OneInside(s, junk, AfterColon(s, colon));
    }
    FieldAgrees(s, s + junk, i, end, colon);
  }

  lemma FieldAgrees(s: string, u: string, i: nat, end: nat, colon: nat)
    requires 0 < i <= end < |s| <= |u| && s[i..end] == u[i..end]
    requires end == IdentifierEnd(s, i) == IdentifierEnd(u, i)
    requires colon == SkipBlank(s, end) == SkipBlank(u, end) && At(u, colon) == At(s, colon)
    requires At(s, colon) == ':' ==> AfterColon(u, colon) == AfterColon(s, colon)
    requires At(s, colon) == ':' ==> ReadOne(u, AfterColon(s, colon)) == ReadOne(s, AfterColon(s, colon))
    ensures ReadField(u, i) == ReadField(s, i)
  {
  }

  lemma {:induction false} FieldsInside(s: string, junk: string, i: nat)
    requires 0 < i && Inside(s, i)
    ensures ReadFields(s + junk, i) == ReadFields(s, i)
    decreases |s| - i
  {
    CommaInside(s, junk, i, false);
    var next := SkipBlankAndComma(s, i, false).next;
    assert (s + junk)[next] == s[next];
    if s[next] != ')' {
      FieldInside(s, junk, next);
      if ReadField(s, next).Some? {
        FieldsInside(s, junk, ReadField(s, next).value.piece.end);
      }
    }
  }

  lemma UserInside(s: string, junk: string, i: nat)
    requires Inside(s, i + 1)
    ensures UserOutline(s + junk, i) == UserOutline(s, i)
  {
    OneInside(s, junk, i + 1);
    match ReadOne(s, Past(i))
    case None =>
    case Some(keyspace) =>
      CommaInside(s, junk, keyspace.end, false);
      var second := SkipBlankAndComma(s, keyspace.end, false).next;
      OneInside(s, junk, second);
      match ReadOne(s, second)
      case None =>
      case Some(hex) =>
        CommaInside(s, junk, hex.end, false);
        FieldsInside(s, junk, SkipBlankAndComma(s, hex.end, false).next);
  }

  lemma {:induction false} BlankSame(s: string, junk: string, i: nat)
    requires SkipBlank(s, i) < |s|
    ensures SkipBlank(s + junk, i) == SkipBlank(s, i)
    decreases |s| - i
  {
    if i < |s| {
      assert (s + junk)[i] == s[i];
      if IsBlank(s[i]) {
        BlankSame(s, junk, i + 1);
      }
    }
  }

  lemma {:induction false} IdentifierSame(s: string, junk: string, i: nat)
    requires IdentifierEnd(s, i) < |s|
    ensures IdentifierEnd(s + junk, i) == IdentifierEnd(s, i)
    decreases |s| - i
  {
    if i < |s| {
      assert (s + junk)[i] == s[i];
      if IsIdentifierChar(s[i]) {
        IdentifierSame(s, junk, i + 1);
      }
    }
  }

  lemma FirstSame(s: string, junk: string)
    requires Complete(s)
    ensures FirstEnd(s + junk) == FirstEnd(s) && FirstName(s + junk) == FirstName(s)
  {
    BlankSame(s, junk, 0);
    IdentifierSame(s, junk, SkipBlank(s, 0));
    SliceSame(s, junk, SkipBlank(s, 0), FirstEnd(s));
  }

  lemma ParamsSame(s: string, junk: string)
    requires Complete(s)
    ensures TypeParams(s + junk, FirstEnd(s)) == TypeParams(s, FirstEnd(s))
  {
    var end := FirstEnd(s);
    assert (s + junk)[end] == s[end];
    PiecesInside(s, junk, end + 1);
  }

  /** What follows a complete class name has no part in its outline. */
  lemma OutlineSame(s: string, junk: string, head: ClassHead, tuple: bool)
    requires Complete(s)
    ensures OutlineOf(s + junk, head, tuple) == OutlineOf(s, head, tuple)
  {
    var end, u := FirstEnd(s), s + junk;
    var name, params, user := FirstName(s), TypeParams(s, end), UserOutline(s, end);
    ReadingsSame(s, junk);
    OutlineIs(s, head, tuple, end, name, params, user);
    OutlineIs(u, head, tuple, end, name, params, user);
  }

  lemma ReadingsSame(s: string, junk: string)
    requires Complete(s)
    ensures FirstEnd(s + junk) == FirstEnd(s) && FirstName(s + junk) == FirstName(s)
    ensures TypeParams(s + junk, FirstEnd(s)) == TypeParams(s, FirstEnd(s))
    ensures UserOutline(s + junk, FirstEnd(s)) == UserOutline(s, FirstEnd(s))
  {
    FirstSame(s, junk);
    ParamsSame(s, junk);
    UserInside(s, junk, FirstEnd(s));
  }

  lemma OutlineIs(s: string, head: ClassHead, tuple: bool, end: nat, name: string, params: Pieces, user: Outline)
    requires FirstEnd(s) == end && FirstName(s) == name
    requires TypeParams(s, end) == params && UserOutline(s, end) == user
    ensures OutlineOf(s, head, tuple) == Chosen(head, name, params, user, tuple)
  {
  }

  // The text of a piece, and what stands behind it

  lemma {:induction false} ClosingShift(s: string, i: nat, c: string, j: nat, open: nat)
    requires Closing(s, i, open).Some? && j + (Closing(s, i, open).value - i) == |c|
    requires s[i..Closing(s, i, open).value] == c[j..]
    ensures Closing(c, j, open) == Some(|c|)
    decreases |s| - i
  {
    var end := Closing(s, i, open).value;
    assert s[i..end][0] == s[i] && c[j..][0] == c[j];
    assert s[i + 1..end] == s[i..end][1..] && c[j + 1..] == c[j..][1..];
    if s[i] == '(' {
      ClosingShift(s, i + 1, c, j + 1, open + 1);
    } else if s[i] != ')' {
      ClosingShift(s, i + 1, c, j + 1, open);
    } else if open > 1 {
      ClosingShift(s, i + 1, c, j + 1, open - 1);
    }
  }

  lemma {:induction false} IdentifierStops(c: string, i: nat, n: nat)
    requires i <= n < |c| && !IsIdentifierChar(c[n])
    requires forall k :: i <= k < n ==> IsIdentifierChar(c[k])
    ensures IdentifierEnd(c, i) == n
    decreases n - i
  {
    if i < n {
      IdentifierStops(c, i + 1, n);
    }
  }

  /** A name with arguments is complete, cut out exactly. */
  lemma CoreComplete(s: string, p: Piece)
    requires p.In(s) && !p.Bare()
    ensures Complete(p.Core(s))
  {
    var c, n := p.Core(s), |p.name|;
    assert c[n..] == s[p.start..p.end];
    assert c[n] == s[p.start..p.end][0] == '(';
    assert c[n + 1..] == c[n..][1..] == s[p.start + 1..p.end];
    ClosingShift(s, p.start + 1, c, n + 1, 1);
    assert forall k :: 0 <= k < n ==> c[k] == p.name[k];
    assert SkipBlank(c, 0) == 0;
    IdentifierStops(c, 0, n);
  }

  /** The over-long text is the exact one with more of the surrounding text behind it. */
  lemma LongIsCore(s: string, junk: string, p: Piece)
    requires p.In(s) && p.In(s + junk)
    ensures p.Core(s) <= p.Long(s + junk)
    ensures p.Bare() ==> p.Core(s) == p.Long(s + junk)
  {
    if !p.Bare() {
      var u, end := s + junk, Least(p.start + p.end, |s + junk|);
      assert u[p.start..end] == u[p.start..p.end] + u[p.end..end];
      assert u[p.start..p.end] == s[p.start..p.end];
      assert p.Long(u) == p.Core(s) + u[p.end..end];
    }
  }

  /** The slice is too long wherever anything follows the arguments. */
  lemma LongIsLonger(s: string, p: Piece)
    requires p.In(s) && !p.Bare() && 0 < p.start && p.end < |s|
    ensures |p.Core(s)| < |p.Long(s)|
  {
  }

  lemma LongText(s: string, junk: string, p: Piece) returns (more: string)
    requires p.In(s) && p.In(s + junk)
    ensures p.Text(s + junk, false) == p.Core(s) + more
    ensures more == "" || Complete(p.Core(s))
  {
    LongIsCore(s, junk, p);
    more := p.Long(s + junk)[|p.Core(s)|..];
    if !p.Bare() {
      CoreComplete(s, p);
    }
  }

  // The head of a text with more behind it

  lemma PrefixSame(s: string, junk: string, prefix: string, paren: nat)
    requires paren < |s| && s[paren] == '('
    requires forall k :: 0 <= k < |prefix| ==> prefix[k] != '('
    ensures StartsWith(s + junk, prefix) <==> StartsWith(s, prefix)
    ensures StartsWith(s, prefix) ==> |prefix| <= paren
  {
    if |prefix| <= paren {
      assert (s + junk)[..|prefix|] == s[..|prefix|];
    } else {
      NotPrefix(s, prefix, paren);
      NotPrefix(s + junk, prefix, paren);
    }
  }

  lemma NotPrefix(s: string, prefix: string, k: nat)
    requires k < |s| && k < |prefix| && s[k] != prefix[k]
    ensures !StartsWith(s, prefix)
  {
    if |prefix| <= |s| {
      assert s[..|prefix|][k] != prefix[k];
    }
  }

  lemma ClassSame(s: string, junk: string, short: string, paren: nat)
    requires paren < |s| && s[paren] == '('
    requires forall k :: 0 <= k < |short| ==> short[k] != '('
    ensures IsClass(s + junk, short) <==> IsClass(s, short)
  {
    PackageSame(s, junk, paren);
    if Packaged(s) {
      assert Unpackaged(s + junk) == Unpackaged(s) + junk;
      PrefixSame(Unpackaged(s), junk, short, paren - |MARSHAL|);
    }
  }

  lemma PackageSame(s: string, junk: string, paren: nat)
    requires paren < |s| && s[paren] == '('
    ensures Packaged(s + junk) <==> Packaged(s)
    ensures Packaged(s) ==> |MARSHAL| <= paren
  {
    PrefixSame(s, junk, MARSHAL, paren);
  }

  lemma WrappingSame(s: string, junk: string)
    requires junk == "" || Complete(s)
    ensures WrappingOf(s + junk) == WrappingOf(s)
  {
    if junk == "" {
      assert s + junk == s;
    } else {
      ClassSame(s, junk, FROZEN_TYPE, FirstEnd(s));
      ClassSame(s, junk, REVERSED_TYPE, FirstEnd(s));
      ClassSame(s, junk, TUPLE_TYPE, FirstEnd(s));
    }
  }

  lemma HeadSame(s: string, junk: string)
    requires junk == "" || Complete(s)
    ensures HeadOf(s + junk) == HeadOf(s)
  {
    if junk == "" {
      assert s + junk == s;
    } else {
      FirstSame(s, junk);
    }
  }

  lemma NestedSame(s: string, junk: string)
    requires junk == "" || Complete(s)
    ensures Nested(s + junk) == Nested(s)
  {
    if junk == "" {
      assert s + junk == s;
    } else {
      FirstSame(s, junk);
      ParamsSame(s, junk);
    }
  }

  lemma OutlineStays(s: string, junk: string, head: ClassHead, tuple: bool)
    requires junk == "" || Complete(s)
    ensures OutlineOf(s + junk, head, tuple) == OutlineOf(s, head, tuple)
  {
    if junk == "" {
      assert s + junk == s;
    } else {
      OutlineSame(s, junk, head, tuple);
    }
  }

  // The theorem

  /** No user type that is reached has a keyspace with arguments. */
  predicate Plain(s: string)
    decreases |s|, 3
  {
    PlainWrapped(s, WrappingOf(s))
  }

  predicate PlainWrapped(s: string, w: Wrapping)
    decreases |s|, 2
  {
    if !w.wrapped then PlainClass(s, HeadOf(s), w)
    else
      match Nested(s)
      case None => true
      case Some(p) =>
        ShorterText(s, p, true);
        PlainClass(p.Core(s), HeadOf(p.Core(s)), w)
  }

  predicate PlainClass(s: string, head: ClassHead, w: Wrapping)
    decreases |s|, 1
  {
    match OutlineOf(s, head, w.tuple)
    case Bad => true
    case Leaf(_) => true
    case Parts(_, list) => AllPlain(s, list)
    case UserParts(keyspace, _, fields) => keyspace.Bare() && AllPlain(s, FieldPiecesOf(fields))
  }

  predicate AllPlain(s: string, list: seq<Piece>)
    requires forall k :: 0 <= k < |list| ==> Within(s, list[k])
    decreases |s|, 0
  {
    forall k :: 0 <= k < |list| ==> (ShorterText(s, list[k], true); Plain(list[k].Core(s)))
  }

  /**
   * How what is parsed relates to what the text says: one is missing when the other
   * is, and otherwise they are equal just when the text is plain.
   */
  predicate Related(actual: DataType, intended: DataType, plain: bool) {
    && (actual == Nil <==> intended == Nil)
    && (intended != Nil ==> (actual == intended <==> plain))
  }

  /**
   * Parsing with the over-long slices, whatever follows a complete class name, gives
   * the type that the text names exactly when the text is plain.
   */
  lemma {:induction false} SlicesAreHarmless(s: string, junk: string)
    requires junk == "" || Complete(s)
    ensures Related(ParseOne(s + junk, false), ParseOne(s, true), Plain(s))
    decreases |s|, 3
  {
    WrappingSame(s, junk);
    WrappedRelated(s, junk, WrappingOf(s));
  }

  lemma {:induction false} WrappedRelated(s: string, junk: string, w: Wrapping)
    requires junk == "" || Complete(s)
    ensures Related(ParseWrapped(s + junk, w, false), ParseWrapped(s, w, true), PlainWrapped(s, w))
    decreases |s|, 2
  {
    if !w.wrapped {
      HeadSame(s, junk);
      ClassRelated(s, junk, HeadOf(s), w);
    } else {
      NestedSame(s, junk);
      match Nested(s)
      case None =>
      case Some(p) =>
        var core := p.Core(s);
        var more := LongText(s, junk, p);
        ShorterText(s, p, true);
        HeadSame(core, more);
        ClassRelated(core, more, HeadOf(core), w);
    }
  }

  lemma {:induction false} ClassRelated(s: string, junk: string, head: ClassHead, w: Wrapping)
    requires junk == "" || Complete(s)
    ensures Related(ParseClass(s + junk, head, w, false), ParseClass(s, head, w, true), PlainClass(s, head, w))
    decreases |s|, 1
  {
    OutlineStays(s, junk, head, w.tuple);
    match OutlineOf(s, head, w.tuple)
    case Bad =>
    case Leaf(name) => LeafIsType(name);
    case Parts(kind, list) =>
      TypesRelated(s, junk, list);
    case UserParts(keyspace, hex, fields) =>
      var list := FieldPiecesOf(fields);
      TypesRelated(s, junk, list);
      NameFollows(s, FirstEnd(s), keyspace, hex, fields);
      UserRelated(s, junk, keyspace, hex, FieldNames(fields),
        TypesOf(s + junk, list, false), TypesOf(s, list, true), AllPlain(s, list));
  }

  lemma LeafIsType(name: string)
    ensures LeafType(name) != Nil
  {
  }

  lemma {:induction false} PieceRelated(s: string, junk: string, p: Piece)
    requires Within(s, p) && p.In(s + junk)
    ensures Related(ParseOne(p.Text(s + junk, false), false), ParseOne(p.Core(s), true), Plain(p.Core(s)))
    decreases |s|, 0, 0
  {
    var more := LongText(s, junk, p);
    ShorterText(s, p, true);
    SlicesAreHarmless(p.Core(s), more);
  }

  lemma {:induction false} TypesRelated(s: string, junk: string, list: seq<Piece>)
    requires forall k :: 0 <= k < |list| ==> Within(s, list[k]) && Within(s + junk, list[k])
    ensures NoNil(TypesOf(s + junk, list, false)) <==> NoNil(TypesOf(s, list, true))
    ensures NoNil(TypesOf(s, list, true)) ==>
      (TypesOf(s + junk, list, false) == TypesOf(s, list, true) <==> AllPlain(s, list))
    decreases |s|, 0, 1
  {
    forall k | 0 <= k < |list|
      ensures Related(TypesOf(s + junk, list, false)[k], TypesOf(s, list, true)[k], Plain(list[k].Core(s)))
    {
      PieceRelated(s, junk, list[k]);
    }
  }

  // User types

  /** A hexadecimal name has no arguments, so it is cut out the same either way. */
  lemma HexSame(s: string, junk: string, p: Piece)
    requires p.In(s) && p.In(s + junk)
    ensures FromHex(p.Text(s + junk, false)) == FromHex(p.Core(s))
  {
    LongIsCore(s, junk, p);
    if !p.Bare() {
      var n := |p.name|;
      assert p.Core(s)[n] == '(' && p.Long(s + junk)[n] == '(';
    }
  }

  lemma KeyspaceText(s: string, junk: string, p: Piece)
    requires p.In(s) && p.In(s + junk) && 0 < p.start && p.end < |s|
    ensures p.Text(s + junk, false) == "" <==> p.Core(s) == ""
    ensures p.Text(s + junk, false) == p.Core(s) <==> p.Bare()
  {
    LongIsCore(s, junk, p);
    if !p.Bare() {
      LongIsLonger(s + junk, p);
    }
  }

  /** The name and the fields of a user type follow its keyspace. */
  lemma NameFollows(s: string, i: nat, keyspace: Piece, hex: Piece, fields: seq<FieldPiece>)
    requires UserOutline(s, i) == UserParts(keyspace, hex, fields)
    ensures 0 < keyspace.start && keyspace.end < |s|
  {
    var second := SkipBlankAndComma(s, keyspace.end, false).next;
    var third := SkipBlankAndComma(s, hex.end, false).next;
    assert keyspace.end <= second <= hex.start <= hex.end <= third;
    assert ReadFields(s, third).ok;
  }

  lemma FieldsEqual(names: seq<string>, a: seq<DataType>, b: seq<DataType>)
    requires |names| == |a| == |b| && FieldsOf(names, a) == FieldsOf(names, b)
    ensures a == b
  {
    forall k | 0 <= k < |a|
      ensures a[k] == b[k]
    {
      assert FieldsOf(names, a)[k] == FieldsOf(names, b)[k];
    }
  }

  lemma UserRelated(s: string, junk: string, keyspace: Piece, hex: Piece, names: seq<string>,
                    actual: seq<DataType>, intended: seq<DataType>, plain: bool)
    requires keyspace.In(s) && keyspace.In(s + junk) && hex.In(s) && hex.In(s + junk)
    requires 0 < keyspace.start && keyspace.end < |s|
    requires |names| == |actual| == |intended|
    requires NoNil(actual) <==> NoNil(intended)
    requires NoNil(intended) ==> (actual == intended <==> plain)
    ensures Related(
      UserOf(keyspace.Text(s + junk, false), hex.Text(s + junk, false), names, actual),
      UserOf(keyspace.Text(s, true), hex.Text(s, true), names, intended),
      keyspace.Bare() && plain)
  {
    HexSame(s, junk, hex);
    KeyspaceText(s, junk, keyspace);
    if FieldsOf(names, actual) == FieldsOf(names, intended) {
      FieldsEqual(names, actual, intended);
    }
  }

  // Names without arguments

  /** A comma or a closing parenthesis, where the enclosing list goes on or ends. */
  predicate Continues(t: string) {
    t != "" && (t[0] == ',' || t[0] == ')')
  }

  lemma BarePrefix(s: string, t: string, prefix: string)
    requires Continues(t) && IsIdentifier(prefix)
    ensures StartsWith(s + t, prefix) <==> StartsWith(s, prefix)
  {
    if |prefix| <= |s| {
      assert (s + t)[..|prefix|] == s[..|prefix|];
    } else {
      assert IsIdentifierChar(prefix[|s|]);
      NotPrefix(s + t, prefix, |s|);
    }
  }

  lemma BareClass(s: string, t: string, short: string)
    requires Continues(t) && IsIdentifier(short)
    ensures IsClass(s + t, short) <==> IsClass(s, short)
  {
    BarePrefix(s, t, MARSHAL);
    if Packaged(s) {
      assert Unpackaged(s + t) == Unpackaged(s) + t;
      BarePrefix(Unpackaged(s), t, short);
    }
  }

  lemma BareWrapping(s: string, t: string)
    requires Continues(t)
    ensures WrappingOf(s + t) == WrappingOf(s)
  {
    BareClass(s, t, FROZEN_TYPE);
    BareClass(s, t, REVERSED_TYPE);
    BareClass(s, t, TUPLE_TYPE);
  }

  lemma {:induction false} BareBlank(s: string, t: string, i: nat)
    requires Continues(t) && i <= |s|
    ensures SkipBlank(s + t, i) == SkipBlank(s, i)
    decreases |s| - i
  {
    if i < |s| && IsBlank(s[i]) {
      BareBlank(s, t, i + 1);
    }
  }

  lemma {:induction false} BareIdentifier(s: string, t: string, i: nat)
    requires Continues(t) && i <= |s| && IdentifierEnd(s, i) == |s|
    ensures IdentifierEnd(s + t, i) == |s|
    decreases |s| - i
  {
    if i < |s| {
      BareIdentifier(s, t, i + 1);
    }
  }

  lemma BareFirst(s: string, t: string)
    requires Continues(t) && FirstEnd(s) == |s|
    ensures FirstEnd(s + t) == |s| && FirstName(s + t) == FirstName(s)
    ensures TypeParams(s, |s|) == Pieces(true, []) && TypeParams(s + t, |s|) == Pieces(false, [])
  {
    BareBlank(s, t, 0);
    BareIdentifier(s, t, SkipBlank(s, 0));
    SliceSame(s, t, SkipBlank(s, 0), |s|);
  }

  lemma BareTuple(s: string)
    requires FirstEnd(s) == |s| && WrappingOf(s).tuple
    ensures !WrappingOf(s).wrapped && HeadOf(s) == OtherHead
  {
    assert s[0] == MARSHAL[0];
    assert FirstName(s) == s;
    var short := Unpackaged(s);
    assert short[0] == short[..|TUPLE_TYPE|][0] == 'T';
    NotPrefix(short, FROZEN_TYPE, 0);
    NotPrefix(short, REVERSED_TYPE, 0);
    NotPrefix(short, LIST_TYPE, 0);
    NotPrefix(short, SET_TYPE, 0);
    NotPrefix(short, MAP_TYPE, 0);
    NotPrefix(short, USER_TYPE, 0);
  }

  lemma BareUser(s: string)
    requires FirstEnd(s) == |s| && HeadOf(s) == UserHead
    ensures WrappingOf(s) == Wrapping(false, false, false)
    ensures UserOutline(s, |s|) == Bad
  {
    if Packaged(s) {
      assert s[0] == MARSHAL[0];
      assert FirstName(s) == s;
      var short := Unpackaged(s);
      assert short[0] == short[..|USER_TYPE|][0] == 'U';
      NotPrefix(short, FROZEN_TYPE, 0);
      NotPrefix(short, REVERSED_TYPE, 0);
      NotPrefix(short, TUPLE_TYPE, 0);
    }
  }

  /** The keyspace, the name and the fields that a user class at `i` finds are all there. */
  predicate UserReads(s: string, i: nat) {
    var user := UserOutline(s, i);
    user.UserParts? &&
    var name := FromHex(user.hex.Long(s));
    && user.keyspace.Long(s) != "" && name.Some? && name.value != ""
    && NoNil(TypesOf(s, FieldPiecesOf(user.fields), false))
  }

  /**
   * Text behind a name without arguments changes its meaning in two cases only. The tuple class alone
   * is the empty tuple, and is refused when more follows. The user class alone is refused; followed by
   * a whole list of arguments it takes them, because any character passes for the parenthesis.
   */
  lemma BareSuffix(s: string, t: string)
    requires Continues(t) && FirstEnd(s) == |s|
    ensures ParseOne(s + t, false) == ParseOne(s, false)
            <==> !WrappingOf(s).tuple && !(HeadOf(s) == UserHead && UserReads(s + t, |s|))
  {
    BareWrapping(s, t);
    BareFirst(s, t);
    if WrappingOf(s).tuple {
      BareTuple(s);
    }
    if HeadOf(s) == UserHead {
      BareUser(s);
      BareUserParse(s, s);
      BareUserParse(s + t, s);
    } else {
      BareParse(s, t, HeadOf(s), WrappingOf(s));
    }
  }

  lemma BareUserParse(s: string, name: string)
    requires FirstEnd(s) == |name| && HeadOf(s) == UserHead && WrappingOf(s) == Wrapping(false, false, false)
    ensures ParseOne(s, false) != Nil <==> UserReads(s, |name|)
  {
    var w := Wrapping(false, false, false);
    OneIsClass(s, UserHead, w);
    var user := UserOutline(s, |name|);
    assert OutlineOf(s, UserHead, false) == user;
    if user.UserParts? {
      var types := TypesOf(s, FieldPiecesOf(user.fields), false);
      assert ParseClass(s, UserHead, w, false)
        == UserOf(user.keyspace.Text(s, false), user.hex.Text(s, false), FieldNames(user.fields), types);
    }
  }

  lemma OneIsClass(s: string, head: ClassHead, w: Wrapping)
    requires WrappingOf(s) == w && !w.wrapped && HeadOf(s) == head
    ensures ParseOne(s, false) == ParseClass(s, head, w, false)
  {
  }

  lemma BareParse(s: string, t: string, head: ClassHead, w: Wrapping)
    requires Continues(t) && FirstEnd(s) == |s| && head != UserHead
    requires head == HeadOf(s) == HeadOf(s + t)
    requires w.tuple ==> !w.wrapped && head == OtherHead
    ensures ParseWrapped(s + t, w, false) == ParseWrapped(s, w, false) <==> !w.tuple
  {
    BareFirst(s, t);
    BareOutline(s, head, w.tuple, TypeParams(s, |s|));
    BareOutline(s + t, head, w.tuple, TypeParams(s + t, |s|));
  }

  lemma BareOutline(s: string, head: ClassHead, tuple: bool, params: Pieces)
    requires TypeParams(s, FirstEnd(s)) == params && params.list == [] && head != UserHead
    ensures OutlineOf(s, head, tuple) ==
      if head.CollectionHead? then Bad
      else if !tuple then Leaf(FirstName(s))
      else if params.ok then Parts(Tuple, [])
      else Bad
  {
  }

  /** Inside a list nothing follows a name without arguments: it is parsed as if it stood alone. */
  lemma BareInside(s: string, k: nat)
    requires !WrappingOf(s).wrapped && ParseOne(s, false).Composite? && k < |ParseOne(s, false).types|
    ensures var outline := OutlineOf(s, HeadOf(s), WrappingOf(s).tuple);
            && outline.Parts? && |outline.list| == |ParseOne(s, false).types|
            && (outline.list[k].Bare() ==> ParseOne(s, false).types[k] == ParseOne(outline.list[k].name, false))
  {
    OneIsClass(s, HeadOf(s), WrappingOf(s));
    CompositeParts(s, HeadOf(s), WrappingOf(s), k);
  }

  lemma CompositeParts(s: string, head: ClassHead, w: Wrapping, k: nat)
    requires ParseClass(s, head, w, false).Composite? && k < |ParseClass(s, head, w, false).types|
    ensures var outline, t := OutlineOf(s, head, w.tuple), ParseClass(s, head, w, false);
            && outline.Parts? && |outline.list| == |t.types|
            && (outline.list[k].Bare() ==> t.types[k] == ParseOne(outline.list[k].name, false))
  {
    match OutlineOf(s, head, w.tuple)
    case Bad =>
    case Leaf(_) =>
    case UserParts(_, _, _) =>
    case Parts(kind, list) =>
      var types := TypesOf(s, list, false);
      assert ParseClass(s, head, w, false) == Gathered(kind, types, w.frozen);
      BarePiece(s, list, k);
  }

  lemma BarePiece(s: string, list: seq<Piece>, k: nat)
    requires (forall i :: 0 <= i < |list| ==> Within(s, list[i])) && k < |list|
    ensures list[k].Bare() ==> TypesOf(s, list, false)[k] == ParseOne(list[k].name, false)
  {
    if list[k].Bare() {
      assert list[k].Text(s, false) == list[k].name;
    }
  }
}

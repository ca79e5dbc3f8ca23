/**
 * The class-name parser itself (`DataTypeClassNameParser`), with the cursor's
 * loops and the recursion of `parse_one`, proved to compute `ClassNames.ParseOne`
 * with the over-long slices.
 */
module ClassParser {
  import opened Options
  import opened DataTypes
  import opened ParserBase
  import opened ClassText
  import opened ClassNames

  method HexToText(hex: string) returns (result: Option<string>)
    ensures result == FromHex(hex)
  {
    if |hex| % 2 == 1 {
      return None;
    }
    var size := |hex| / 2;
    var bytes := "";
    for i := 0 to size
      invariant |bytes| == i
      invariant forall k :: 0 <= k < 2 * i ==> HexValue(hex[k]) >= 0
      invariant forall k :: 0 <= k < i ==> bytes[k] == ByteAt(hex, k)
    {
      var half0, half1 := HexValue(hex[2 * i]), HexValue(hex[2 * i + 1]);
      if half0 < 0 || half1 < 0 {
        return None;
      }
      bytes := bytes + [(16 * half0 + half1) as char];
    }
    assert |hex| == 2 * size;
    assert bytes == FromHex(hex).value;
    result := Some(bytes);
  }

  method ReadNextIdentifier(cursor: Cursor) returns (name: string)
    modifies cursor
    ensures cursor.index == IdentifierEnd(cursor.text, old(cursor.index))
    ensures name == Slice(cursor.text, old(cursor.index), cursor.index)
  {
    var start := cursor.index;
    while cursor.index < |cursor.text| && IsIdentifierChar(cursor.text[cursor.index])
      invariant start <= cursor.index
      invariant IdentifierEnd(cursor.text, cursor.index) == IdentifierEnd(cursor.text, start)
    {
      cursor.index := cursor.index + 1;
    }
    name := if start < cursor.index then cursor.text[start..cursor.index] else "";
  }

  method GetNextName(cursor: Cursor) returns (name: string)
    modifies cursor
    ensures cursor.index == IdentifierEnd(cursor.text, SkipBlank(cursor.text, old(cursor.index)))
    ensures name == Slice(cursor.text, SkipBlank(cursor.text, old(cursor.index)), cursor.index)
  {
    cursor.SkipBlanks();
    name := ReadNextIdentifier(cursor);
  }

  /** The parenthesis count of `read_raw_arguments`, with its over-long result. */
  method ReadRawArguments(cursor: Cursor) returns (ok: bool, args: string)
    modifies cursor
    ensures ok <==> RawArguments(cursor.text, SkipBlank(cursor.text, old(cursor.index))).Some?
    ensures ok ==> RawArguments(cursor.text, SkipBlank(cursor.text, old(cursor.index))) == Some(cursor.index)
    ensures ok ==> args == LongSlice(cursor.text, SkipBlank(cursor.text, old(cursor.index)), cursor.index)
  {
    cursor.SkipBlanks();
    var start := cursor.index;
    if start >= |cursor.text| || cursor.text[start] == ')' || cursor.text[start] == ',' {
      return true, "";
    }
    if cursor.text[start] != '(' {
      return false, "";
    }
    var open := 1;
    while open > 0
      invariant start <= cursor.index < |cursor.text|
      invariant open > 0 ==> Closing(cursor.text, cursor.index + 1, open) == Closing(cursor.text, start + 1, 1)
      invariant open == 0 ==> Closing(cursor.text, start + 1, 1) == Some(cursor.index + 1)
      decreases |cursor.text| - cursor.index
    {
      cursor.index := cursor.index + 1;
      if cursor.index >= |cursor.text| {
        return false, "";
      }
      if cursor.text[cursor.index] == '(' {
        open := open + 1;
      } else if cursor.text[cursor.index] == ')' {
        open := open - 1;
      }
    }
    cursor.index := cursor.index + 1;
    ok, args := true, LongSlice(cursor.text, start, cursor.index);
  }

  method ReadOneName(cursor: Cursor) returns (text: Option<string>)
    modifies cursor
    ensures text.Some? <==> ReadOne(cursor.text, old(cursor.index)).Some?
    ensures text.Some? ==> cursor.index == ReadOne(cursor.text, old(cursor.index)).value.end
    ensures text.Some? ==> text.value == ReadOne(cursor.text, old(cursor.index)).value.Long(cursor.text)
  {
    var name := GetNextName(cursor);
    var ok, args := ReadRawArguments(cursor);
    text := if ok then Some(name + args) else None;
  }

  /** The texts that the parser keeps of the pieces it reads. */
  function LongTexts(s: string, list: seq<Piece>): (r: seq<string>)
    requires forall k :: 0 <= k < |list| ==> list[k].In(s)
    ensures |r| == |list|
    ensures forall k :: 0 <= k < |list| ==> r[k] == list[k].Long(s)
  {
    seq(|list|, i requires 0 <= i < |list| => list[i].Long(s))
  }

  method GetTypeParams(cursor: Cursor) returns (ok: bool, params: seq<string>)
    modifies cursor
    ensures ok == TypeParams(cursor.text, old(cursor.index)).ok
    ensures params == LongTexts(cursor.text, TypeParams(cursor.text, old(cursor.index)).list)
  {
    if cursor.index >= |cursor.text| {
      return true, [];
    }
    if cursor.text[cursor.index] != '(' {
      return false, [];
    }
    cursor.index := cursor.index + 1;
    ok, params := ReadParams(cursor);
  }

  /** One round of reading pieces, `next` being past the blanks. */
  lemma PiecesStep(s: string, i: nat, next: nat)
    requires 0 < i && SkipBlankAndComma(s, i, false) == Skipped(true, next) && s[next] != ')'
    ensures ReadOne(s, next).None? ==> ReadPieces(s, i) == Pieces(false, [])
    ensures ReadOne(s, next).Some? ==> i < ReadOne(s, next).value.end && Within(s, ReadOne(s, next).value)
    ensures ReadOne(s, next).Some? ==>
      var p := ReadOne(s, next).value;
      ReadPieces(s, i) == Pieces(ReadPieces(s, p.end).ok, [p] + ReadPieces(s, p.end).list)
  {
  }

  lemma PiecesEnd(s: string, i: nat, skipped: Skipped)
    requires 0 < i && SkipBlankAndComma(s, i, false) == skipped && (skipped.more ==> s[skipped.next] == ')')
    ensures ReadPieces(s, i) == Pieces(skipped.more, [])
  {
  }

  /** `done` has been read of all the pieces, and `rest` is what is still to come. */
  ghost predicate ReadSoFar(all: Pieces, done: seq<Piece>, rest: Pieces) {
    all.ok == rest.ok && all.list == done + rest.list
  }

  lemma ReadOneMore(all: Pieces, done: seq<Piece>, p: Piece, rest: Pieces)
    requires ReadSoFar(all, done, Pieces(rest.ok, [p] + rest.list))
    ensures ReadSoFar(all, done + [p], rest)
  {
  }

  lemma ReadAll(all: Pieces, done: seq<Piece>, ok: bool)
    requires ReadSoFar(all, done, Pieces(ok, []))
    ensures all == Pieces(ok, done)
  {
  }

  lemma LongTextsAppend(s: string, list: seq<Piece>, p: Piece)
    requires p.In(s) && forall k :: 0 <= k < |list| ==> list[k].In(s)
    ensures LongTexts(s, list + [p]) == LongTexts(s, list) + [p.Long(s)]
  {
  }

  /** The loop of `get_type_params`, past the opening parenthesis. */
  method ReadParams(cursor: Cursor) returns (ok: bool, params: seq<string>)
    requires 0 < cursor.index
    modifies cursor
    ensures ok == ReadPieces(cursor.text, old(cursor.index)).ok
    ensures params == LongTexts(cursor.text, ReadPieces(cursor.text, old(cursor.index)).list)
  {
    ghost var done: seq<Piece>, before := [], cursor.index;
    ghost var all := ReadPieces(cursor.text, cursor.index);
    params := [];
    var more := cursor.SkipBlanksAndComma();
    while more && cursor.text[cursor.index] != ')'
      invariant 0 < before && SkipBlankAndComma(cursor.text, before, false) == Skipped(more, cursor.index)
      invariant forall k :: 0 <= k < |done| ==> done[k].In(cursor.text)
      invariant params == LongTexts(cursor.text, done)
      invariant ReadSoFar(all, done, ReadPieces(cursor.text, before))
      decreases |cursor.text| - before
    {
      PiecesStep(cursor.text, before, cursor.index);
      ghost var piece := ReadOne(cursor.text, cursor.index);
      var param := ReadOneName(cursor);
      if param.None? {
        ReadAll(all, done, false);
        return false, params;
      }
      ReadOneMore(all, done, piece.value, ReadPieces(cursor.text, piece.value.end));
      LongTextsAppend(cursor.text, done, piece.value);
      params := params + [param.value];
      done, before := done + [piece.value], cursor.index;
      more := cursor.SkipBlanksAndComma();
    }
    PiecesEnd(cursor.text, before, Skipped(more, cursor.index));
    ReadAll(all, done, more);
    if more {
      cursor.index := cursor.index + 1;
    }
    ok := more;
  }

  /** One round of the loop of `get_name_and_type_params`. */
  method GetField(cursor: Cursor) returns (ok: bool, name: string, text: string, ghost field: Option<FieldPiece>)
    requires 0 < cursor.index < |cursor.text|
    modifies cursor
    ensures field == ReadField(cursor.text, old(cursor.index)) && ok == field.Some?
    ensures ok ==> name == field.value.name && text == field.value.piece.Long(cursor.text)
    ensures ok ==> cursor.index == field.value.piece.end
  {
    ok, name, text, field := false, "", "", None;
    var hex := ReadNextIdentifier(cursor);
    var decoded := HexToText(hex);
    if decoded.None? {
      return;
    }
    cursor.SkipBlanks();
    if At(cursor.text, cursor.index) != ':' {
      return;
    }
    cursor.index := cursor.index + 1;
    cursor.SkipBlanks();
    ghost var piece := ReadOne(cursor.text, cursor.index);
    var read := ReadOneName(cursor);
    if read.Some? {
      ok, name, text := true, decoded.value, read.value;
      field := Some(FieldPiece(name, piece.value));
    }
  }

  lemma FieldsStep(s: string, i: nat, next: nat)
    requires 0 < i && SkipBlankAndComma(s, i, false) == Skipped(true, next) && s[next] != ')'
    ensures ReadField(s, next).None? ==> ReadFields(s, i) == FieldPieces(false, [])
    ensures ReadField(s, next).Some? ==> i < ReadField(s, next).value.piece.end
    ensures ReadField(s, next).Some? ==>
      var f := ReadField(s, next).value;
      ReadFields(s, i) == FieldPieces(ReadFields(s, f.piece.end).ok, [f] + ReadFields(s, f.piece.end).list)
  {
  }

  lemma FieldsEnd(s: string, i: nat, skipped: Skipped)
    requires 0 < i && SkipBlankAndComma(s, i, false) == skipped && (skipped.more ==> s[skipped.next] == ')')
    ensures ReadFields(s, i) == FieldPieces(skipped.more, [])
  {
  }

  ghost predicate FieldsSoFar(all: FieldPieces, done: seq<FieldPiece>, rest: FieldPieces) {
    all.ok == rest.ok && all.list == done + rest.list
  }

  lemma FieldOneMore(all: FieldPieces, done: seq<FieldPiece>, f: FieldPiece, rest: FieldPieces)
    requires FieldsSoFar(all, done, FieldPieces(rest.ok, [f] + rest.list))
    ensures FieldsSoFar(all, done + [f], rest)
  {
  }

  lemma FieldsAll(all: FieldPieces, done: seq<FieldPiece>, ok: bool)
    requires FieldsSoFar(all, done, FieldPieces(ok, []))
    ensures all == FieldPieces(ok, done)
  {
  }

  /** The names and the texts are those of some fields. */
  ghost predicate NamesAndTexts(s: string, list: seq<FieldPiece>, names: seq<string>, texts: seq<string>) {
    && (forall k :: 0 <= k < |list| ==> list[k].piece.In(s))
    && names == FieldNames(list) && texts == LongTexts(s, FieldPiecesOf(list))
  }

  lemma FieldsAppend(s: string, list: seq<FieldPiece>, f: FieldPiece, names: seq<string>, texts: seq<string>)
    requires f.piece.In(s) && NamesAndTexts(s, list, names, texts)
    ensures NamesAndTexts(s, list + [f], names + [f.name], texts + [f.piece.Long(s)])
  {
  }

  method GetNameAndTypeParams(cursor: Cursor) returns (ok: bool, names: seq<string>, texts: seq<string>)
    requires 0 < cursor.index
    modifies cursor
    ensures ok == ReadFields(cursor.text, old(cursor.index)).ok
    ensures names == FieldNames(ReadFields(cursor.text, old(cursor.index)).list)
    ensures texts == LongTexts(cursor.text, FieldPiecesOf(ReadFields(cursor.text, old(cursor.index)).list))
  {
    ghost var done: seq<FieldPiece>, before := [], cursor.index;
    ghost var all := ReadFields(cursor.text, cursor.index);
    names, texts := [], [];
    var more := cursor.SkipBlanksAndComma();
    while more && cursor.text[cursor.index] != ')'
      invariant 0 < before && SkipBlankAndComma(cursor.text, before, false) == Skipped(more, cursor.index)
      invariant NamesAndTexts(cursor.text, done, names, texts)
      invariant FieldsSoFar(all, done, ReadFields(cursor.text, before))
      decreases |cursor.text| - before
    {
      FieldsStep(cursor.text, before, cursor.index);
      ghost var field;
      var fine, name, text;
      fine, name, text, field := GetField(cursor);
      if !fine {
        FieldsAll(all, done, false);
        return false, names, texts;
      }
      FieldOneMore(all, done, field.value, ReadFields(cursor.text, field.value.piece.end));
      FieldsAppend(cursor.text, done, field.value, names, texts);
      names, texts := names + [name], texts + [text];
      done, before := done + [field.value], cursor.index;
      more := cursor.SkipBlanksAndComma();
    }
    FieldsEnd(cursor.text, before, Skipped(more, cursor.index));
    FieldsAll(all, done, more);
    if more {
      cursor.index := cursor.index + 1;
    }
    ok := more;
  }

  ghost function EachOf(texts: seq<string>): (r: seq<DataType>)
    ensures |r| == |texts|
    ensures forall k :: 0 <= k < |texts| ==> r[k] == ParseOne(texts[k], false)
  {
    seq(|texts|, i requires 0 <= i < |texts| => ParseOne(texts[i], false))
  }

  lemma EachIsTypes(s: string, list: seq<Piece>)
    requires forall k :: 0 <= k < |list| ==> list[k].In(s) && Within(s, list[k])
    ensures EachOf(LongTexts(s, list)) == TypesOf(s, list, false)
    ensures forall k :: 0 <= k < |list| ==> |LongTexts(s, list)[k]| < |s|
  {
    forall k | 0 <= k < |list|
      ensures |LongTexts(s, list)[k]| < |s|
    {
      ShorterText(s, list[k], false);
    }
  }

  /** The types of some texts; it stops at the first that is missing. */
  method ParseEach(texts: seq<string>, ghost limit: nat) returns (ok: bool, types: seq<DataType>)
    requires forall k :: 0 <= k < |texts| ==> |texts[k]| < limit
    ensures ok == NoNil(EachOf(texts))
    ensures ok ==> types == EachOf(texts)
    decreases limit, 0, 0
  {
    types := [];
    for i := 0 to |texts|
      invariant types == EachOf(texts)[..i] && NoNil(types)
    {
      var t := ParseClassName(texts[i]);
      if t == Nil {
        assert EachOf(texts)[i] == Nil;
        return false, types;
      }
      types := types + [t];
    }
    ok := true;
  }

  function Wanted(kind: Kind): nat {
    if kind == Map then 2 else 1
  }

  lemma CollectionIs(s: string, kind: Kind, w: Wrapping, params: Pieces)
    requires params == TypeParams(s, FirstEnd(s))
    ensures ParseClass(s, CollectionHead(kind), w, false) ==
      if params.ok && Wanted(kind) <= |params.list|
      then Gathered(kind, TypesOf(s, params.list[..Wanted(kind)], false), w.frozen)
      else Nil
  {
  }

  lemma OtherIs(s: string, w: Wrapping, params: Pieces)
    requires params == TypeParams(s, FirstEnd(s))
    ensures ParseClass(s, OtherHead, w, false) ==
      if !w.tuple then LeafType(FirstName(s))
      else if params.ok then Gathered(Tuple, TypesOf(s, params.list, false), w.frozen)
      else Nil
  {
  }

  /** What the branch for user types makes of its readings. */
  ghost function UserFrom(s: string, user: Outline): DataType
    requires user.UserParts? ==> user.keyspace.In(s) && user.hex.In(s)
    requires user.UserParts? ==> forall k :: 0 <= k < |user.fields| ==> Within(s, user.fields[k].piece)
  {
    match user
    case UserParts(keyspace, hex, fields) =>
      UserOf(keyspace.Long(s), hex.Long(s), FieldNames(fields), TypesOf(s, FieldPiecesOf(fields), false))
    case _ => Nil
  }

  lemma UserIs(s: string, w: Wrapping)
    ensures ParseClass(s, UserHead, w, false) == UserFrom(s, UserOutline(s, FirstEnd(s)))
  {
  }

  method ParseCollection(cursor: Cursor, kind: Kind, w: Wrapping) returns (t: DataType)
    requires cursor.index == FirstEnd(cursor.text) && kind != Tuple
    modifies cursor
    ensures t == ParseClass(cursor.text, CollectionHead(kind), w, false)
    decreases |cursor.text|, 0, 1
  {
    ghost var pieces := TypeParams(cursor.text, cursor.index);
    CollectionIs(cursor.text, kind, w, pieces);
    var n := Wanted(kind);
    var ok, params := GetTypeParams(cursor);
    if !ok || |params| < n {
      return Nil;
    }
    EachIsTypes(cursor.text, pieces.list[..n]);
    assert params[..n] == LongTexts(cursor.text, pieces.list[..n]);
    var fine, types := ParseEach(params[..n], |cursor.text|);
    t := if fine then Composite(kind, types, w.frozen) else Nil;
  }

  method ParseTuple(cursor: Cursor, w: Wrapping) returns (t: DataType)
    requires cursor.index == FirstEnd(cursor.text) && w.tuple
    modifies cursor
    ensures t == ParseClass(cursor.text, OtherHead, w, false)
    decreases |cursor.text|, 0, 1
  {
    ghost var pieces := TypeParams(cursor.text, cursor.index);
    OtherIs(cursor.text, w, pieces);
    var ok, params := GetTypeParams(cursor);
    if !ok {
      return Nil;
    }
    EachIsTypes(cursor.text, pieces.list);
    var fine, types := ParseEach(params, |cursor.text|);
    t := if fine then Composite(Tuple, types, true) else Nil;
  }

  /** The readings of the branch for user types, the cursor being at the parenthesis. */
  method ReadUser(cursor: Cursor)
    returns (ok: bool, keyspace: string, hex: string, names: seq<string>, texts: seq<string>, ghost user: Outline)
    modifies cursor
    ensures user == UserOutline(cursor.text, old(cursor.index)) && ok == user.UserParts?
    ensures ok ==> keyspace == user.keyspace.Long(cursor.text) && hex == user.hex.Long(cursor.text)
    ensures ok ==> names == FieldNames(user.fields) && texts == LongTexts(cursor.text, FieldPiecesOf(user.fields))
  {
    ok, keyspace, hex, names, texts := false, "", "", [], [];
    user := UserOutline(cursor.text, cursor.index);
    cursor.Skip();
    var first := ReadOneName(cursor);
    if first.None? {
      return;
    }
    var _ := cursor.SkipBlanksAndComma();
    var second := ReadOneName(cursor);
    if second.None? {
      return;
    }
    keyspace, hex := first.value, second.value;
    var _ := cursor.SkipBlanksAndComma();
    ok, names, texts := GetNameAndTypeParams(cursor);
  }

  /** The branch for user types. */
  method ParseUser(cursor: Cursor, w: Wrapping) returns (t: DataType)
    requires cursor.index == FirstEnd(cursor.text)
    modifies cursor
    ensures t == ParseClass(cursor.text, UserHead, w, false)
    decreases |cursor.text|, 0, 1
  {
    UserIs(cursor.text, w);
    ghost var user;
    var ok, keyspace, hex, names, texts;
    ok, keyspace, hex, names, texts, user := ReadUser(cursor);
    if !ok {
      return Nil;
    }
    var name := HexToText(hex);
    if name.None? || keyspace == "" || name.value == "" {
      return Nil;
    }
    EachIsTypes(cursor.text, FieldPiecesOf(user.fields));
    var fine, types := ParseEach(texts, |cursor.text|);
    t := if fine then User(keyspace, name.value, FieldsOf(names, types), true) else Nil;
  }

  /** `parse_one` once the class name to parse is known. */
  method ParseUnwrapped(s: string, w: Wrapping) returns (t: DataType)
    ensures t == ParseClass(s, HeadOf(s), w, false)
    decreases |s|, 1
  {
    var cursor := new Cursor(s);
    var next := GetNextName(cursor);
    match ClassHeadOf(next) {
      case CollectionHead(kind) => t := ParseCollection(cursor, kind, w);
      case UserHead => t := ParseUser(cursor, w);
      case OtherHead =>
        if w.tuple {
          t := ParseTuple(cursor, w);
        } else {
          OtherIs(s, w, TypeParams(s, FirstEnd(s)));
          t := LeafType(next);
        }
    }
  }

  /** `get_nested_class_name`: what it makes of an error in the parameters is not looked at. */
  method GetNestedClassName(s: string) returns (text: Option<string>)
    ensures text.Some? <==> Nested(s).Some?
    ensures text.Some? ==> text.value == Nested(s).value.Long(s)
  {
    var cursor := new Cursor(s);
    var _ := GetNextName(cursor);
    var _, params := GetTypeParams(cursor);
    text := if |params| == 1 then Some(params[0]) else None;
  }

  /** `parse_one`. */
  method ParseClassName(s: string) returns (t: DataType)
    ensures t == ParseOne(s, false)
    decreases |s|, 2
  {
    var w := WrappingOf(s);
    if w.wrapped {
      var nested := GetNestedClassName(s);
      if nested.None? {
        return Nil;
      }
      ShorterText(s, Nested(s).value, false);
      t := ParseUnwrapped(nested.value, w);
    } else {
      t := ParseUnwrapped(s, w);
    }
  }
}

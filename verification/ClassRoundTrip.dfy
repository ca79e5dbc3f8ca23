/**
 * The class names that the server gives to types parse to those types: a reference
 * printer of class names, and the parser as its inverse, over-long slices included
 * and whatever text follows.
 */
module ClassRoundTrip {
  import opened Options
  import opened DataTypes
  import opened ParserBase
  import opened TextPlaces
  import opened ClassText
  import opened ClassNames
  import opened ClassSlices
  import opened ClassTextLemmas

  // Hexadecimal names

  function HexDigit(n: nat): (c: char)
    requires n < 16
    ensures HexValue(c) == n && IsIdentifierChar(c)
  {
    if n < 10 then (n + '0' as int) as char else (n - 10 + 'a' as int) as char
  }

  predicate IsBytes(s: string) {
    forall k :: 0 <= k < |s| ==> s[k] as int < 256
  }

  function ToHex(s: string): (r: string)
    requires IsBytes(s)
    ensures |r| == 2 * |s|
  {
    if s == "" then "" else [HexDigit(s[0] as int / 16), HexDigit(s[0] as int % 16)] + ToHex(s[1..])
  }

  lemma {:induction false} HexDigits(s: string, k: nat)
    requires IsBytes(s) && k < |s|
    ensures ToHex(s)[2 * k] == HexDigit(s[k] as int / 16) && ToHex(s)[2 * k + 1] == HexDigit(s[k] as int % 16)
    decreases |s|
  {
    if k > 0 {
      HexDigits(s[1..], k - 1);
    }
  }

  lemma {:induction false} HexCharacters(s: string)
    requires IsBytes(s)
    ensures IsIdentifier(ToHex(s)) && IsHex(ToHex(s))
    decreases |s|
  {
    if s != "" {
      HexCharacters(s[1..]);
    }
  }

  /** `from_hex` undoes the encoding of any bytes. */
  lemma HexRoundTrip(s: string)
    requires IsBytes(s)
    ensures FromHex(ToHex(s)) == Some(s)
  {
    HexCharacters(s);
    var r := FromHex(ToHex(s)).value;
    assert |r| == |s|;
    forall k | 0 <= k < |s|
      ensures r[k] == s[k]
    {
      ByteBack(s, k);
    }
    assert r == s;
  }

  lemma ByteBack(s: string, k: nat)
    requires IsBytes(s) && k < |s|
    ensures HexValue(ToHex(s)[2 * k]) >= 0 && HexValue(ToHex(s)[2 * k + 1]) >= 0
    ensures ByteAt(ToHex(s), k) == s[k]
  {
    HexDigits(s, k);
    ByteOf(ToHex(s), k, s[k] as int);
  }

  lemma ByteOf(h: string, k: nat, n: nat)
    requires 2 * k + 1 < |h| && n < 256 && h[2 * k] == HexDigit(n / 16) && h[2 * k + 1] == HexDigit(n % 16)
    ensures HexValue(h[2 * k]) >= 0 && HexValue(h[2 * k + 1]) >= 0 && ByteAt(h, k) == n as char
  {
    TwoDigits(h[2 * k], h[2 * k + 1], n);
  }

  lemma TwoDigits(high: char, low: char, n: nat)
    requires n < 256 && high == HexDigit(n / 16) && low == HexDigit(n % 16)
    ensures HexValue(high) >= 0 && HexValue(low) >= 0 && 16 * HexValue(high) + HexValue(low) == n
  {
  }

  // The class names of types

  function ShortKind(k: Kind): string {
    match k
    case List => LIST_TYPE
    case Set => SET_TYPE
    case Map => MAP_TYPE
    case Tuple => TUPLE_TYPE
  }

  /** The types that have class names which stand for them. */
  predicate Nameable(t: DataType) {
    match t
    case Nil => false
    case Simple(s) => s != Varchar
    case Custom(c) =>
      && IsIdentifier(c) && c != "" && LeafType(c) == Custom(c)
      && ClassHeadOf(c) == OtherHead && WrappingOf(c) == Wrapping(false, false, false)
    case Composite(k, types, frozen) =>
      && (if k == Tuple then frozen else |types| == (if k == Map then 2 else 1))
      && forall i :: 0 <= i < |types| ==> Nameable(types[i])
    case User(ks, name, fields, frozen) =>
      && frozen && IsIdentifier(ks) && ks != "" && IsBytes(name) && name != ""
      && forall i :: 0 <= i < |fields| ==> IsBytes(fields[i].name) && Nameable(fields[i].dataType)
  }

  /** The class name of a type in its parts; a frozen collection is wrapped once more. */
  function PartOf(t: DataType): Part
    requires Nameable(t)
    decreases t, 2
  {
    match t
    case Simple(s) => Part(MARSHAL + ShortClass(s), None)
    case Custom(c) => Part(c, None)
    case Composite(k, types, frozen) =>
      if k != Tuple && frozen then Part(MARSHAL + FROZEN_TYPE, Some(BodyOf(t).Text())) else BodyOf(t)
    case User(ks, name, fields, _) =>
      Part(MARSHAL + USER_TYPE, Some(ks + "," + ToHex(name) + FieldsText(fields)))
  }

  function BodyOf(t: DataType): Part
    requires Nameable(t) && t.Composite?
    decreases t, 1
  {
    Part(MARSHAL + ShortKind(t.kind), Some(Joined(PartsOf(t.types))))
  }

  function PartsOf(types: seq<DataType>): (r: seq<Part>)
    requires forall i :: 0 <= i < |types| ==> Nameable(types[i])
    ensures |r| == |types|
    decreases types, 0
  {
    seq(|types|, i requires 0 <= i < |types| => PartOf(types[i]))
  }

  function FieldsText(fields: seq<Field>): string
    requires forall i :: 0 <= i < |fields| ==> IsBytes(fields[i].name) && Nameable(fields[i].dataType)
    decreases fields, 0
  {
    if fields == [] then ""
    else "," + FieldText(fields[0]) + FieldsText(fields[1..])
  }

  function FieldText(f: Field): string
    requires IsBytes(f.name) && Nameable(f.dataType)
    decreases f.dataType, 3
  {
    ToHex(f.name) + ":" + PartOf(f.dataType).Text()
  }

  /** The class name that the server gives to a type. */
  function ClassName(t: DataType): string
    requires Nameable(t)
  {
    PartOf(t).Text()
  }

  // Which class a name is

  /** Two names that differ in their first two characters. */
  predicate Unlike(a: string, b: string) {
    |a| >= 2 && |b| >= 2 && (a[0] != b[0] || a[1] != b[1])
  }

  lemma UnlikeIsNotPrefix(a: string, rest: string, b: string)
    requires Unlike(a, b)
    ensures !StartsWith(a + rest, b)
  {
    if a[0] != b[0] {
      NotPrefix(a + rest, b, 0);
    } else {
      NotPrefix(a + rest, b, 1);
    }
  }

  lemma PackagedText(short: string, rest: string)
    ensures Packaged(MARSHAL + short + rest) && Unpackaged(MARSHAL + short + rest) == short + rest
  {
    var s := MARSHAL + short + rest;
    assert s == MARSHAL + (short + rest);
    PackagePrefix(s, short + rest);
  }

  lemma PackagePrefix(s: string, rest: string)
    requires s == MARSHAL + rest
    ensures Packaged(s) && Unpackaged(s) == rest
  {
  }

  lemma NotClass(short: string, rest: string, other: string)
    requires Unlike(short, other)
    ensures !IsClass(MARSHAL + short + rest, other)
  {
    PackagedText(short, rest);
    UnlikeIsNotPrefix(short, rest, other);
  }

  lemma SameClass(short: string, rest: string)
    ensures IsClass(MARSHAL + short + rest, short)
  {
    PackagedText(short, rest);
    assert (short + rest)[..|short|] == short;
  }

  /** The names of simple types are not taken for anything else. */
  predicate Ordinary(short: string) {
    && Unlike(short, FROZEN_TYPE) && Unlike(short, REVERSED_TYPE) && Unlike(short, TUPLE_TYPE)
    && Unlike(short, LIST_TYPE) && Unlike(short, SET_TYPE) && Unlike(short, MAP_TYPE) && Unlike(short, USER_TYPE)
  }

  lemma SimpleIsOrdinary(t: SimpleType)
    requires t != Varchar
    ensures Ordinary(ShortClass(t))
  {
  }

  lemma OrdinaryHead(short: string)
    requires Ordinary(short)
    ensures ClassHeadOf(MARSHAL + short) == OtherHead && WrappingOf(MARSHAL + short) == Wrapping(false, false, false)
  {
    var s := MARSHAL + short;
    assert s == MARSHAL + short + "";
    NotClass(short, "", FROZEN_TYPE);
    NotClass(short, "", REVERSED_TYPE);
    NotClass(short, "", TUPLE_TYPE);
    NotClass(short, "", LIST_TYPE);
    NotClass(short, "", SET_TYPE);
    NotClass(short, "", MAP_TYPE);
    NotClass(short, "", USER_TYPE);
  }

  lemma KindHead(k: Kind)
    ensures ClassHeadOf(MARSHAL + ShortKind(k)) == if k == Tuple then OtherHead else CollectionHead(k)
  {
    var short := ShortKind(k);
    assert MARSHAL + short == MARSHAL + short + "";
    SameClass(short, "");
    if k != List { NotClass(short, "", LIST_TYPE); }
    if k != Set { NotClass(short, "", SET_TYPE); }
    if k != Map { NotClass(short, "", MAP_TYPE); }
    NotClass(short, "", USER_TYPE);
  }

  lemma UserClassHead()
    ensures ClassHeadOf(MARSHAL + USER_TYPE) == UserHead
  {
    assert MARSHAL + USER_TYPE == MARSHAL + USER_TYPE + "";
    SameClass(USER_TYPE, "");
    NotClass(USER_TYPE, "", LIST_TYPE);
    NotClass(USER_TYPE, "", SET_TYPE);
    NotClass(USER_TYPE, "", MAP_TYPE);
  }

  lemma KindWrapping(k: Kind, rest: string)
    ensures WrappingOf(MARSHAL + ShortKind(k) + rest) == Wrapping(false, false, k == Tuple)
  {
    var short := ShortKind(k);
    NotClass(short, rest, FROZEN_TYPE);
    NotClass(short, rest, REVERSED_TYPE);
    if k == Tuple {
      SameClass(short, rest);
    } else {
      NotClass(short, rest, TUPLE_TYPE);
    }
  }

  lemma UserWrapping(rest: string)
    ensures WrappingOf(MARSHAL + USER_TYPE + rest) == Wrapping(false, false, false)
  {
    NotClass(USER_TYPE, rest, FROZEN_TYPE);
    NotClass(USER_TYPE, rest, REVERSED_TYPE);
    NotClass(USER_TYPE, rest, TUPLE_TYPE);
  }

  lemma FrozenWrapping(rest: string)
    ensures WrappingOf(MARSHAL + FROZEN_TYPE + rest) == Wrapping(true, true, false)
  {
    SameClass(FROZEN_TYPE, rest);
    NotClass(FROZEN_TYPE, rest, TUPLE_TYPE);
  }

  /** Every class of the table is found under its own name, whatever its case. */
  lemma SimpleByClass(t: SimpleType)
    requires t != Varchar
    ensures ByClass(MARSHAL + ShortClass(t)) == Some(t)
  {
    var short := ShortClass(t);
    var lower := Lowered(MARSHAL + short);
    MarshalIsLower();
    assert lower == MARSHAL + Lowered(short);
    PackagePrefix(lower, Lowered(short));
    ShortIsNamed(t);
  }

  lemma MarshalIsLower()
    ensures forall k :: 0 <= k < |MARSHAL| ==> Lower(MARSHAL[k]) == MARSHAL[k]
  {
  }

  lemma ShortIsNamed(t: SimpleType)
    requires t != Varchar
    ensures ShortNamed(Lowered(ShortClass(t))) == Some(t)
  {
    HasClass(t);
    FirstIsNamed(CLASS_TYPES, t);
  }

  lemma HasClass(t: SimpleType)
    ensures t in CLASS_TYPES <==> t != Varchar
  {
  }

  lemma {:induction false} FirstIsNamed(types: seq<SimpleType>, t: SimpleType)
    requires t in types && forall u <- types :: u in CLASS_TYPES
    ensures FirstNamed(types, Lowered(ShortClass(t))) == Some(t)
    decreases |types|
  {
    if types[0] != t {
      HasClass(t);
      HasClass(types[0]);
      ClassesDiffer(types[0], t);
      FirstIsNamed(types[1..], t);
    }
  }

  /** What tells the classes apart, whatever their case. */
  function Sign(s: string): (nat, char, char)
    requires |s| >= 2
  {
    (|s|, Lower(s[0]), Lower(s[1]))
  }

  lemma ClassesDiffer(t: SimpleType, u: SimpleType)
    requires t != u && t != Varchar && u != Varchar
    ensures Lowered(ShortClass(t)) != Lowered(ShortClass(u))
  {
    SignOf(t);
    SignOf(u);
    SignsDiffer(ShortClass(t), ShortClass(u));
  }

  lemma SignsDiffer(a: string, b: string)
    requires |a| >= 2 && |b| >= 2 && Sign(a) != Sign(b)
    ensures Lowered(a) != Lowered(b)
  {
    if |a| == |b| {
      assert Lowered(a)[0] == Lower(a[0]) && Lowered(a)[1] == Lower(a[1]);
      assert Lowered(b)[0] == Lower(b[0]) && Lowered(b)[1] == Lower(b[1]);
    }
  }

  lemma SignOf(t: SimpleType)
    requires t != Varchar
    ensures |ShortClass(t)| >= 2 && Sign(ShortClass(t)) == KnownSign(t)
  {
  }

  function KnownSign(t: SimpleType): (nat, char, char)
    requires t != Varchar
  {
    match t
    case Ascii => (9, 'a', 's')
    case Bigint => (8, 'l', 'o')
    case Blob => (9, 'b', 'y')
    case Boolean => (11, 'b', 'o')
    case Counter => (17, 'c', 'o')
    case Decimal => (11, 'd', 'e')
    case Double => (10, 'd', 'o')
    case Float => (9, 'f', 'l')
    case Int => (9, 'i', 'n')
    case Text => (8, 'u', 't')
    case Timestamp => (13, 't', 'i')
    case Uuid => (8, 'u', 'u')
    case Varint => (11, 'i', 'n')
    case Timeuuid => (12, 't', 'i')
    case Inet => (15, 'i', 'n')
    case Date => (14, 's', 'i')
    case Time => (8, 't', 'i')
    case Smallint => (9, 's', 'h')
    case Tinyint => (8, 'b', 'y')
    case Duration => (12, 'd', 'u')
  }

  lemma ShortIsIdentifier(t: SimpleType)
    ensures IsIdentifier(ShortClass(t))
  {
    if EarlyType(t) {
      EarlyIsIdentifier(t);
    } else {
      LateIsIdentifier(t);
    }
  }

  predicate EarlyType(t: SimpleType) {
    || t == Ascii || t == Bigint || t == Blob || t == Boolean || t == Counter || t == Decimal
    || t == Double || t == Float || t == Int || t == Text
  }

  lemma EarlyIsIdentifier(t: SimpleType)
    requires EarlyType(t)
    ensures IsIdentifier(ShortClass(t))
  {
  }

  lemma LateIsIdentifier(t: SimpleType)
    requires !EarlyType(t)
    ensures IsIdentifier(ShortClass(t))
  {
  }

  lemma MarshalName(short: string)
    requires IsIdentifier(short)
    ensures IsIdentifier(MARSHAL + short) && MARSHAL + short != ""
  {
    MarshalIsIdentifier();
  }

  lemma MarshalIsIdentifier()
    ensures IsIdentifier(MARSHAL)
  {
  }

  lemma ShortsAreIdentifiers(k: Kind)
    ensures IsIdentifier(ShortKind(k)) && IsIdentifier(FROZEN_TYPE) && IsIdentifier(USER_TYPE)
  {
  }

  lemma {:induction false} PartReadable(t: DataType)
    requires Nameable(t)
    ensures PartOf(t).Readable()
    decreases t, 1
  {
    match t
    case Simple(s) =>
      ShortIsIdentifier(s);
      MarshalName(ShortClass(s));
    case Custom(_) =>
    case Composite(k, _, frozen) =>
      BodyReadable(t);
      ShortsAreIdentifiers(k);
      MarshalName(FROZEN_TYPE);
      PartBalanced(BodyOf(t));
    case User(ks, name, fields, _) =>
      ShortsAreIdentifiers(List);
      MarshalName(USER_TYPE);
      UserBalanced(ks, name, fields);
  }

  lemma {:induction false} BodyReadable(t: DataType)
    requires Nameable(t) && t.Composite?
    ensures BodyOf(t).Readable() && AllReadable(PartsOf(t.types))
    decreases t, 0
  {
    ShortsAreIdentifiers(t.kind);
    MarshalName(ShortKind(t.kind));
    forall i | 0 <= i < |t.types|
      ensures PartsOf(t.types)[i].Readable()
    {
      PartReadable(t.types[i]);
    }
    JoinedBalanced(PartsOf(t.types));
  }

  lemma {:induction false} UserBalanced(ks: string, name: string, fields: seq<Field>)
    requires IsIdentifier(ks) && IsBytes(name)
    requires forall i :: 0 <= i < |fields| ==> IsBytes(fields[i].name) && Nameable(fields[i].dataType)
    ensures Balanced(ks + "," + ToHex(name) + FieldsText(fields))
    decreases fields, 1
  {
    HexCharacters(name);
    IdentifierBalanced(ks);
    IdentifierBalanced(ToHex(name));
    PlainBalanced(",");
    BalancedConcat(ks, ",");
    BalancedConcat(ks + ",", ToHex(name));
    FieldsBalanced(fields);
    BalancedConcat(ks + "," + ToHex(name), FieldsText(fields));
  }

  lemma {:induction false} FieldsBalanced(fields: seq<Field>)
    requires forall i :: 0 <= i < |fields| ==> IsBytes(fields[i].name) && Nameable(fields[i].dataType)
    ensures Balanced(FieldsText(fields))
    decreases fields, 0
  {
    if fields == [] {
      PlainBalanced("");
    } else {
      var f := fields[0];
      HexCharacters(f.name);
      IdentifierBalanced(ToHex(f.name));
      PlainBalanced(":");
      PlainBalanced(",");
      PartReadable(f.dataType);
      PartBalanced(PartOf(f.dataType));
      BalancedConcat(ToHex(f.name), ":");
      BalancedConcat(ToHex(f.name) + ":", PartOf(f.dataType).Text());
      BalancedConcat(",", FieldText(f));
      FieldsBalanced(fields[1..]);
      BalancedConcat("," + FieldText(f), FieldsText(fields[1..]));
    }
  }

  // Reading the fields of a user type

  ghost predicate AllNamed(fields: seq<Field>) {
    forall i :: 0 <= i < |fields| ==> IsBytes(fields[i].name) && Nameable(fields[i].dataType)
  }

  /** The piece that stands for a field is its type. */
  ghost predicate FieldStands(s: string, p: FieldPiece, f: Field)
    requires IsBytes(f.name) && Nameable(f.dataType)
  {
    p.piece.In(s) && p.name == f.name && p.piece.Core(s) == ClassName(f.dataType)
  }

  ghost predicate FieldsStand(s: string, pieces: seq<FieldPiece>, fields: seq<Field>)
    requires AllNamed(fields)
  {
    |pieces| == |fields| && forall k :: 0 <= k < |fields| ==> FieldStands(s, pieces[k], fields[k])
  }

  lemma ReadFieldIs(s: string, i: nat, end: nat, start: nat, name: string, piece: Piece)
    requires 0 < i <= end < |s| && IdentifierEnd(s, i) == end && SkipBlank(s, end) == end && s[end] == ':'
    requires FromHex(s[i..end]) == Some(name) && AfterColon(s, end) == start && ReadOne(s, start) == Some(piece)
    ensures ReadField(s, i) == Some(FieldPiece(name, piece))
  {
  }

  lemma FieldHere(s: string, i: nat, hex: string, text: string, end: nat)
    requires Here(s, i, hex + ":" + text) && end == i + |hex|
    ensures Here(s, i, hex) && end < |s| && s[end] == ':' && Here(s, end + 1, text) && s[i..end] == hex
  {
    assert hex + ":" + text == hex + (":" + text);
    HereSplit(s, i, hex, ":" + text);
    HereSplit(s, end, ":", text);
    HereAt(s, end, ":");
  }

  lemma FieldPartRead(s: string, i: nat, hex: string, name: string, part: Part, end: nat) returns (p: FieldPiece)
    requires 0 < i && IsIdentifier(hex) && FromHex(hex) == Some(name) && part.Readable()
    requires Here(s, i, hex + ":" + part.Text()) && end == i + |hex + ":" + part.Text()| && Over(s, end)
    ensures ReadField(s, i) == Some(p) && p.piece.end == end
    ensures p.name == name && p.piece.In(s) && p.piece.Core(s) == part.Text()
    ensures StartsField(s, i)
  {
    var colon := i + |hex|;
    var start := colon + 1;
    FieldHere(s, i, hex, part.Text(), colon);
    IdentifierTail(s, i, hex);
    PartRead(s, start, part);
    var piece := Piece(part.name, start + |part.name|, end);
    p := FieldPiece(name, piece);
    ReadFieldIs(s, i, colon, start, name, piece);
    FieldStart(s, i, hex);
  }

  /** Where a field starts, there is neither a blank nor a comma nor a parenthesis. */
  predicate StartsField(s: string, i: nat) {
    i < |s| && (IsIdentifierChar(s[i]) || s[i] == ':')
  }

  lemma FieldStart(s: string, i: nat, hex: string)
    requires IsIdentifier(hex) && Here(s, i, hex) && i + |hex| < |s| && s[i + |hex|] == ':'
    ensures StartsField(s, i)
  {
    if hex != "" {
      HereAt(s, i, hex);
      assert IsIdentifierChar(hex[0]);
    }
  }

  /** One field is read back. */
  lemma FieldRead(s: string, i: nat, f: Field, end: nat) returns (p: FieldPiece)
    requires 0 < i && IsBytes(f.name) && Nameable(f.dataType)
    requires Here(s, i, FieldText(f)) && end == i + |FieldText(f)| && Over(s, end)
    ensures ReadField(s, i) == Some(p) && p.piece.end == end && FieldStands(s, p, f)
    ensures StartsField(s, i)
  {
    HexCharacters(f.name);
    HexRoundTrip(f.name);
    PartReadable(f.dataType);
    p := FieldPartRead(s, i, ToHex(f.name), f.name, PartOf(f.dataType), end);
  }

  lemma FieldsAfterComma(s: string, i: nat, next: nat, p: FieldPiece)
    requires 0 < i && next == i + 1 && i < |s| && s[i] == ',' && StartsField(s, next)
    requires ReadField(s, next) == Some(p)
    ensures SkipBlankAndComma(s, i, false) == Skipped(true, next)
    ensures ReadFields(s, i) == FieldPieces(ReadFields(s, p.piece.end).ok, [p] + ReadFields(s, p.piece.end).list)
    ensures ReadFields(s, next) == ReadFields(s, i)
  {
    assert SkipBlankAndComma(s, i, false) == SkipBlankAndComma(s, next, true) == Skipped(true, next);
    assert SkipBlankAndComma(s, next, false) == Skipped(true, next);
  }

  lemma FieldsEnd(s: string, i: nat)
    requires 0 < i < |s| && s[i] == ')'
    ensures ReadFields(s, i) == FieldPieces(true, []) && SkipBlankAndComma(s, i, false) == Skipped(true, i)
  {
  }

  lemma FieldsHere(s: string, i: nat, text: string, rest: string, next: nat)
    requires Here(s, i, "," + text + rest + ")") && next == i + 1
    ensures i < |s| && s[i] == ',' && Here(s, next, text) && Here(s, next + |text|, rest + ")")
  {
    assert "," + text + rest + ")" == "," + (text + (rest + ")"));
    HereSplit(s, i, ",", text + (rest + ")"));
    HereSplit(s, next, text, rest + ")");
    HereAt(s, i, ",");
  }

  lemma FieldsOver(s: string, i: nat, fields: seq<Field>)
    requires AllNamed(fields) && Here(s, i, FieldsText(fields) + ")")
    ensures Over(s, i)
  {
    HereAt(s, i, FieldsText(fields) + ")");
  }

  /** All the fields are read back, from the comma before the first of them. */
  lemma {:induction false} FieldsRead(s: string, i: nat, fields: seq<Field>)
    requires 0 < i && AllNamed(fields) && Here(s, i, FieldsText(fields) + ")")
    ensures ReadFields(s, i).ok && FieldsStand(s, ReadFields(s, i).list, fields)
    ensures ReadFields(s, SkipBlankAndComma(s, i, false).next) == ReadFields(s, i)
    decreases |fields|
  {
    if fields == [] {
      HereAt(s, i, FieldsText(fields) + ")");
      FieldsEnd(s, i);
    } else {
      var f, rest, next := fields[0], fields[1..], i + 1;
      var end := next + |FieldText(f)|;
      FieldsHere(s, i, FieldText(f), FieldsText(rest), next);
      FieldsOver(s, end, rest);
      var p := FieldRead(s, next, f, end);
      FieldsRead(s, end, rest);
      FieldsAfterComma(s, i, next, p);
      FieldsStandCons(s, p, ReadFields(s, end).list, fields);
    }
  }

  lemma FieldsStandCons(s: string, p: FieldPiece, pieces: seq<FieldPiece>, fields: seq<Field>)
    requires AllNamed(fields) && fields != [] && FieldStands(s, p, fields[0]) && FieldsStand(s, pieces, fields[1..])
    ensures FieldsStand(s, [p] + pieces, fields)
  {
  }

  // Reading a user type

  lemma UserOutlineIs(s: string, i: nat, first: nat, keyspace: Piece, second: nat, hex: Piece, third: nat,
                      fields: FieldPieces)
    requires first == i + 1 && ReadOne(s, first) == Some(keyspace)
    requires SkipBlankAndComma(s, keyspace.end, false).next == second
    requires ReadOne(s, second) == Some(hex) && SkipBlankAndComma(s, hex.end, false).next == third && 0 < third
    requires ReadFields(s, third) == fields && fields.ok
    ensures UserOutline(s, i) == UserParts(keyspace, hex, fields.list)
  {
    assert Past(i) == first;
  }

  lemma CommaSkip(s: string, i: nat, next: nat)
    requires i < |s| && s[i] == ',' && next == i + 1 && Starts(s, next)
    ensures SkipBlankAndComma(s, i, false).next == next
  {
    assert SkipBlankAndComma(s, next, true) == Skipped(true, next);
  }

  /** Any one character passes for the opening parenthesis. */
  lemma UserHere(s: string, i: nat, open: string, ks: string, hex: string, rest: string, comma: nat, end: nat)
    requires Here(s, i, open + (ks + "," + hex + rest) + ")") && |open| == 1
    requires comma == i + 1 + |ks| && end == comma + 1 + |hex|
    ensures Here(s, i + 1, ks) && comma < |s| && s[comma] == ','
    ensures Here(s, comma + 1, hex) && Here(s, end, rest + ")")
  {
    assert open + (ks + "," + hex + rest) + ")" == open + (ks + ("," + (hex + (rest + ")"))));
    HereSplit(s, i, open, ks + ("," + (hex + (rest + ")"))));
    HereSplit(s, i + 1, ks, "," + (hex + (rest + ")")));
    HereSplit(s, comma, ",", hex + (rest + ")"));
    HereSplit(s, comma + 1, hex, rest + ")");
    HereAt(s, comma, ",");
  }

  lemma BareRead(s: string, i: nat, name: string, end: nat)
    requires IsIdentifier(name) && name != "" && Here(s, i, name) && end == i + |name| && Over(s, end)
    ensures ReadOne(s, i) == Some(Piece(name, end, end)) && Starts(s, i)
  {
    assert Part(name, None).Text() == name;
    PartRead(s, i, Part(name, None));
  }

  /** The keyspace, the name and the fields of a user type are read back. */
  lemma UserRead(s: string, i: nat, ks: string, name: string, fields: seq<Field>)
    returns (keyspace: Piece, hex: Piece, pieces: seq<FieldPiece>)
    requires IsIdentifier(ks) && ks != "" && IsBytes(name) && name != "" && AllNamed(fields)
    requires Here(s, i, "(" + (ks + "," + ToHex(name) + FieldsText(fields)) + ")")
    ensures UserOutline(s, i) == UserParts(keyspace, hex, pieces) && FieldsStand(s, pieces, fields)
    ensures keyspace.Bare() && keyspace.name == ks && hex.Bare() && hex.name == ToHex(name)
  {
    HexCharacters(name);
    keyspace, hex, pieces := UserReadHex(s, i, ks, ToHex(name), fields);
  }

  lemma UserReadHex(s: string, i: nat, ks: string, h: string, fields: seq<Field>)
    returns (keyspace: Piece, hex: Piece, pieces: seq<FieldPiece>)
    requires IsIdentifier(ks) && ks != "" && IsIdentifier(h) && h != "" && AllNamed(fields)
    requires Here(s, i, "(" + (ks + "," + h + FieldsText(fields)) + ")")
    ensures UserOutline(s, i) == UserParts(keyspace, hex, pieces) && FieldsStand(s, pieces, fields)
    ensures keyspace.Bare() && keyspace.name == ks && hex.Bare() && hex.name == h
  {
    var first := i + 1;
    var comma := first + |ks|;
    var second := comma + 1;
    var end := second + |h|;
    UserHere(s, i, "(", ks, h, FieldsText(fields), comma, end);
    FieldsOver(s, end, fields);
    FieldsRead(s, end, fields);
    var all, third := ReadFields(s, end), SkipBlankAndComma(s, end, false).next;
    keyspace, hex, pieces := Piece(ks, comma, comma), Piece(h, end, end), all.list;
    BareKeyspace(s, i, first, ks, keyspace, comma, second, h, end, third, all);
  }

  lemma BareKeyspace(s: string, i: nat, first: nat, ks: string, keyspace: Piece, comma: nat, second: nat,
                     hex: string, end: nat, third: nat, fields: FieldPieces)
    requires IsIdentifier(ks) && ks != "" && IsIdentifier(hex) && hex != "" && Over(s, end)
    requires first == i + 1 && comma == first + |ks| && second == comma + 1 && end == second + |hex|
    requires keyspace == Piece(ks, comma, comma)
    requires Here(s, first, ks) && comma < |s| && s[comma] == ',' && Here(s, second, hex)
    requires third == SkipBlankAndComma(s, end, false).next && ReadFields(s, third) == fields && fields.ok
    ensures UserOutline(s, i) == UserParts(keyspace, Piece(hex, end, end), fields.list)
  {
    assert Part(ks, None).Text() == ks;
    UserNames(s, i, first, Part(ks, None), keyspace, comma, second, hex, end, third, fields);
  }

  /** The keyspace and the name of a user type, once its fields can be read. */
  lemma UserNames(s: string, i: nat, first: nat, ks: Part, keyspace: Piece, comma: nat, second: nat,
                  hex: string, end: nat, third: nat, fields: FieldPieces)
    requires ks.Readable() && IsIdentifier(hex) && hex != "" && Over(s, end)
    requires first == i + 1 && comma == first + |ks.Text()| && second == comma + 1 && end == second + |hex|
    requires keyspace == Piece(ks.name, first + |ks.name|, comma)
    requires Here(s, first, ks.Text()) && comma < |s| && s[comma] == ',' && Here(s, second, hex)
    requires third == SkipBlankAndComma(s, end, false).next && ReadFields(s, third) == fields && fields.ok
    ensures UserOutline(s, i) == UserParts(keyspace, Piece(hex, end, end), fields.list) && StandsFor(s, keyspace, ks)
  {
    KeyspaceRead(s, first, ks, comma, keyspace);
    NameRead(s, comma, second, hex, end);
    UserOutlineIs(s, i, first, keyspace, second, Piece(hex, end, end), third, fields);
  }

  lemma KeyspaceRead(s: string, i: nat, ks: Part, comma: nat, keyspace: Piece)
    requires ks.Readable() && Here(s, i, ks.Text()) && comma == i + |ks.Text()| && Over(s, comma)
    requires keyspace == Piece(ks.name, i + |ks.name|, comma)
    ensures ReadOne(s, i) == Some(keyspace) && StandsFor(s, keyspace, ks)
  {
    PartRead(s, i, ks);
  }

  lemma NameRead(s: string, comma: nat, next: nat, hex: string, end: nat)
    requires IsIdentifier(hex) && hex != "" && next == comma + 1 && end == next + |hex| && Over(s, end)
    requires comma < |s| && s[comma] == ',' && Here(s, next, hex)
    ensures SkipBlankAndComma(s, comma, false).next == next && ReadOne(s, next) == Some(Piece(hex, end, end))
  {
    BareRead(s, next, hex, end);
    CommaSkip(s, comma, next);
  }

  // The round trip

  // What the parser does with a text whose head is known

  lemma ParseUnwrapped(s: string, w: Wrapping, head: ClassHead)
    requires WrappingOf(s) == w && !w.wrapped && HeadOf(s) == head
    ensures ParseOne(s, true) == ParseClass(s, head, w, true) && Plain(s) == PlainClass(s, head, w)
  {
  }

  lemma ParseNested(s: string, w: Wrapping, p: Piece, text: string)
    requires WrappingOf(s) == w && w.wrapped && Nested(s) == Some(p) && p.Core(s) == text
    ensures ParseOne(s, true) == ParseClass(text, HeadOf(text), w, true)
    ensures Plain(s) == PlainClass(text, HeadOf(text), w)
  {
  }

  lemma LeafIs(s: string, w: Wrapping, name: string)
    requires FirstName(s) == name && !w.tuple
    ensures ParseClass(s, OtherHead, w, true) == LeafType(name) && PlainClass(s, OtherHead, w)
  {
    assert OutlineOf(s, OtherHead, w.tuple) == Leaf(name);
  }

  /** What a collection or tuple makes of its parameters. */
  lemma BodyIs(s: string, head: ClassHead, w: Wrapping, kind: Kind, pieces: seq<Piece>)
    requires TypeParams(s, FirstEnd(s)) == Pieces(true, pieces)
    requires head == if kind == Tuple then OtherHead else CollectionHead(kind)
    requires kind == Tuple ==> w.tuple
    requires kind != Tuple ==> |pieces| == if kind == Map then 2 else 1
    ensures forall k :: 0 <= k < |pieces| ==> Within(s, pieces[k])
    ensures ParseClass(s, head, w, true) == Gathered(kind, TypesOf(s, pieces, true), w.frozen)
    ensures PlainClass(s, head, w) == AllPlain(s, pieces)
  {
    assert pieces[..|pieces|] == pieces;
    assert OutlineOf(s, head, w.tuple) == Parts(kind, pieces);
  }

  lemma UserClassIs(s: string, w: Wrapping, keyspace: Piece, hex: Piece, pieces: seq<FieldPiece>)
    requires UserOutline(s, FirstEnd(s)) == UserParts(keyspace, hex, pieces) && keyspace.Bare() && hex.Bare()
    ensures ParseClass(s, UserHead, w, true) ==
      UserOf(keyspace.name, hex.name, FieldNames(pieces), TypesOf(s, FieldPiecesOf(pieces), true))
    ensures PlainClass(s, UserHead, w) == AllPlain(s, FieldPiecesOf(pieces))
  {
    assert OutlineOf(s, UserHead, w.tuple) == UserParts(keyspace, hex, pieces);
  }

  // The parts of a type

  ghost predicate PiecesOf(s: string, pieces: seq<Piece>, types: seq<DataType>)
    requires forall k :: 0 <= k < |types| ==> Nameable(types[k])
  {
    |pieces| == |types| &&
    forall k :: 0 <= k < |pieces| ==>
      pieces[k].In(s) && Within(s, pieces[k]) && pieces[k].Core(s) == ClassName(types[k])
  }

  /** The pieces stand for parts of a type, which all parse back. */
  lemma {:induction false} TypesParse(s: string, pieces: seq<Piece>, types: seq<DataType>, t: DataType)
    requires forall k :: 0 <= k < |types| ==> Nameable(types[k]) && types[k] < t
    requires PiecesOf(s, pieces, types)
    ensures TypesOf(s, pieces, true) == types && NoNil(types) && AllPlain(s, pieces)
    decreases t, 0
  {
    forall k | 0 <= k < |types|
      ensures ParseOne(pieces[k].Core(s), true) == types[k] && Plain(pieces[k].Core(s)) && types[k] != Nil
    {
      NamedParses(types[k]);
    }
    TypesParseTo(s, pieces, types);
  }

  lemma TypesParseTo(s: string, pieces: seq<Piece>, types: seq<DataType>)
    requires |pieces| == |types| && forall k :: 0 <= k < |pieces| ==> pieces[k].In(s) && Within(s, pieces[k])
    requires forall k :: 0 <= k < |pieces| ==>
      ParseOne(pieces[k].Core(s), true) == types[k] && Plain(pieces[k].Core(s)) && types[k] != Nil
    ensures TypesOf(s, pieces, true) == types && NoNil(types) && AllPlain(s, pieces)
  {
  }

  lemma StandPieces(s: string, pieces: seq<Piece>, parts: seq<Part>, types: seq<DataType>)
    requires forall k :: 0 <= k < |types| ==> Nameable(types[k])
    requires |parts| == |types| && forall k :: 0 <= k < |types| ==> parts[k] == PartOf(types[k])
    requires Stand(s, pieces, parts) && forall k :: 0 <= k < |pieces| ==> Within(s, pieces[k])
    ensures PiecesOf(s, pieces, types)
  {
  }

  lemma PartsAt(types: seq<DataType>)
    requires forall i :: 0 <= i < |types| ==> Nameable(types[i])
    ensures forall k :: 0 <= k < |types| ==> PartsOf(types)[k] == PartOf(types[k])
  {
  }

  lemma {:induction false} BodyParses(t: DataType, w: Wrapping)
    requires Nameable(t) && t.Composite? && w.tuple == (t.kind == Tuple) && (t.kind != Tuple ==> w.frozen == t.frozen)
    ensures ParseClass(BodyOf(t).Text(), HeadOf(BodyOf(t).Text()), w, true) == t
    ensures PlainClass(BodyOf(t).Text(), HeadOf(BodyOf(t).Text()), w)
    decreases t, 1
  {
    var body, types := BodyOf(t), t.types;
    var s := body.Text();
    BodyReadable(t);
    OwnHead(body);
    KindHead(t.kind);
    OwnParams(body, PartsOf(types));
    var pieces := TypeParams(s, |body.name|).list;
    BodyIs(s, HeadOf(s), w, t.kind, pieces);
    PartsAt(types);
    StandPieces(s, pieces, PartsOf(types), types);
    TypesParse(s, pieces, types, t);
  }

  // The round trip

  /** A name without arguments that is no other class. */
  lemma LeafParses(name: string)
    requires IsIdentifier(name) && name != ""
    requires ClassHeadOf(name) == OtherHead && WrappingOf(name) == Wrapping(false, false, false)
    ensures ParseOne(Part(name, None).Text(), true) == LeafType(name) && Plain(Part(name, None).Text())
  {
    assert Part(name, None).Text() == name;
    OwnHead(Part(name, None));
    ParseUnwrapped(name, Wrapping(false, false, false), OtherHead);
    LeafIs(name, Wrapping(false, false, false), name);
  }

  lemma SimpleParses(s: SimpleType)
    requires s != Varchar
    ensures ParseOne(ClassName(Simple(s)), true) == Simple(s) && Plain(ClassName(Simple(s)))
  {
    ShortIsIdentifier(s);
    MarshalName(ShortClass(s));
    SimpleIsOrdinary(s);
    OrdinaryHead(ShortClass(s));
    SimpleByClass(s);
    LeafParses(MARSHAL + ShortClass(s));
  }

  lemma {:induction false} NamedParses(t: DataType)
    requires Nameable(t)
    ensures ParseOne(ClassName(t), true) == t && Plain(ClassName(t))
    decreases t, 3
  {
    match t
    case Simple(s) => SimpleParses(s);
    case Custom(c) => LeafParses(c);
    case Composite(k, types, frozen) =>
      if k != Tuple && frozen {
        FrozenParses(t);
      } else {
        PlainParses(t);
      }
    case User(_, _, _, _) => UserParses(t);
  }

  /** A tuple, or a collection that is not frozen. */
  lemma {:induction false} PlainParses(t: DataType)
    requires Nameable(t) && t.Composite? && (t.kind == Tuple || !t.frozen)
    ensures ParseOne(ClassName(t), true) == t && Plain(ClassName(t))
    decreases t, 2
  {
    var w, s := Wrapping(false, false, t.kind == Tuple), BodyOf(t).Text();
    KindWrapping(t.kind, Suffix(BodyOf(t).inside));
    BodyParses(t, w);
    ParseUnwrapped(s, w, HeadOf(s));
  }

  lemma {:induction false} FrozenParses(t: DataType)
    requires Nameable(t) && t.Composite? && t.kind != Tuple && t.frozen
    ensures ParseOne(ClassName(t), true) == t && Plain(ClassName(t))
    decreases t, 2
  {
    var w, s, text := Wrapping(true, true, false), ClassName(t), BodyOf(t).Text();
    FrozenWrapping(Suffix(Some(text)));
    BodyParses(t, w);
    var p := FrozenNested(t);
    ParseNested(s, w, p, text);
  }

  lemma FrozenNested(t: DataType) returns (p: Piece)
    requires Nameable(t) && t.Composite? && t.kind != Tuple && t.frozen
    ensures Nested(ClassName(t)) == Some(p) && p.Core(ClassName(t)) == BodyOf(t).Text()
  {
    var part, body := PartOf(t), BodyOf(t);
    BodyReadable(t);
    PartReadable(t);
    OwnHead(part);
    assert Joined([body]) == body.Text();
    OwnParams(part, [body]);
    p := TypeParams(part.Text(), |part.name|).list[0];
  }

  lemma {:induction false} UserParses(t: DataType)
    requires Nameable(t) && t.User?
    ensures ParseOne(ClassName(t), true) == t && Plain(ClassName(t))
    decreases t, 2
  {
    var w, s := Wrapping(false, false, false), ClassName(t);
    UserWrapping(Suffix(PartOf(t).inside));
    var keyspace, hex, pieces := UserOutlineRead(t);
    UserClassIs(s, w, keyspace, hex, pieces);
    ParseUnwrapped(s, w, UserHead);
    UserTypesParse(s, pieces, t);
    HexRoundTrip(t.name);
    FieldsPutTogether(t.fields);
  }

  lemma UserOutlineRead(t: DataType) returns (keyspace: Piece, hex: Piece, pieces: seq<FieldPiece>)
    requires Nameable(t) && t.User?
    ensures HeadOf(ClassName(t)) == UserHead
    ensures UserOutline(ClassName(t), FirstEnd(ClassName(t))) == UserParts(keyspace, hex, pieces)
    ensures keyspace.Bare() && keyspace.name == t.keyspace && hex.Bare() && hex.name == ToHex(t.name)
    ensures FieldsStand(ClassName(t), pieces, t.fields)
  {
    var part := PartOf(t);
    var s := part.Text();
    PartReadable(t);
    OwnHead(part);
    UserClassHead();
    WholeHere(part.name, Suffix(part.inside));
    keyspace, hex, pieces := UserRead(s, |part.name|, t.keyspace, t.name, t.fields);
  }

  lemma WholeHere(a: string, b: string)
    ensures Here(a + b, |a|, b)
  {
    var s := a + b;
    assert s[0..|s|] == s;
    HereSplit(s, 0, a, b);
  }

  lemma {:induction false} UserTypesParse(s: string, pieces: seq<FieldPiece>, t: DataType)
    requires t.User? && AllNamed(t.fields) && FieldsStand(s, pieces, t.fields)
    requires forall k :: 0 <= k < |pieces| ==> Within(s, pieces[k].piece)
    ensures TypesOf(s, FieldPiecesOf(pieces), true) == FieldTypesOf(t.fields) && NoNil(FieldTypesOf(t.fields))
    ensures AllPlain(s, FieldPiecesOf(pieces)) && FieldNames(pieces) == FieldNamesOf(t.fields)
    decreases t, 1
  {
    forall k | 0 <= k < |pieces|
      ensures FieldStands(s, pieces[k], t.fields[k])
    {
    }
    TypesParse(s, FieldPiecesOf(pieces), FieldTypesOf(t.fields), t);
  }

  function FieldTypesOf(fields: seq<Field>): (r: seq<DataType>)
    ensures |r| == |fields|
    ensures forall k :: 0 <= k < |fields| ==> r[k] == fields[k].dataType
  {
    seq(|fields|, i requires 0 <= i < |fields| => fields[i].dataType)
  }

  function FieldNamesOf(fields: seq<Field>): (r: seq<string>)
    ensures |r| == |fields|
  {
    seq(|fields|, i requires 0 <= i < |fields| => fields[i].name)
  }

  lemma FieldsPutTogether(fields: seq<Field>)
    ensures FieldsOf(FieldNamesOf(fields), FieldTypesOf(fields)) == fields
  {
  }

  /** The class name of a type parses to the type, and so it does whatever follows its closing parenthesis. */
  lemma ClassNameRoundTrip(t: DataType, junk: string)
    requires Nameable(t) && (junk == "" || PartOf(t).inside.Some?)
    ensures ParseOne(ClassName(t) + junk, false) == t
  {
    NamedParses(t);
    PartReadable(t);
    OwnHead(PartOf(t));
    SlicesAreHarmless(ClassName(t), junk);
  }

  // Where the over-long slice does show

  /** A user type without fields whose keyspace has arguments. */
  function Odd(ks: Part, name: string): Part
    requires IsBytes(name)
  {
    Part(MARSHAL + USER_TYPE, Some(ks.Text() + "," + ToHex(name) + ""))
  }

  lemma OddReadable(ks: Part, name: string)
    requires ks.Readable() && IsBytes(name)
    ensures Odd(ks, name).Readable()
  {
    ShortsAreIdentifiers(List);
    MarshalName(USER_TYPE);
    HexCharacters(name);
    IdentifierBalanced(ToHex(name));
    PartBalanced(ks);
    PlainBalanced(",");
    BalancedConcat(ks.Text(), ",");
    BalancedConcat(ks.Text() + ",", ToHex(name));
    assert ks.Text() + "," + ToHex(name) + "" == ks.Text() + "," + ToHex(name);
  }

  lemma OddRead(s: string, i: nat, open: string, ks: Part, name: string) returns (keyspace: Piece, hex: Piece)
    requires ks.Readable() && IsBytes(name) && name != "" && |open| == 1
    requires Here(s, i, open + (ks.Text() + "," + ToHex(name) + "") + ")")
    ensures UserOutline(s, i) == UserParts(keyspace, hex, [])
    ensures keyspace.In(s) && keyspace.Core(s) == ks.Text() && (keyspace.Bare() <==> ks.inside.None?)
    ensures hex.Bare() && hex.name == ToHex(name)
  {
    var comma := i + 1 + |ks.Text()|;
    var end := comma + 1 + |ToHex(name)|;
    UserHere(s, i, open, ks.Text(), ToHex(name), "", comma, end);
    HexCharacters(name);
    HereAt(s, end, "" + ")");
    FieldsEnd(s, end);
    keyspace, hex := Piece(ks.name, i + 1 + |ks.name|, comma), Piece(ToHex(name), end, end);
    UserNames(s, i, i + 1, ks, keyspace, comma, comma + 1, ToHex(name), end,
      SkipBlankAndComma(s, end, false).next, FieldPieces(true, []));
  }

  lemma OddClassIs(s: string, w: Wrapping, keyspace: Piece, hex: Piece, name: string)
    requires UserOutline(s, FirstEnd(s)) == UserParts(keyspace, hex, [])
    requires hex.Bare() && FromHex(hex.name) == Some(name)
    ensures ParseClass(s, UserHead, w, true) ==
      if keyspace.Core(s) == "" || name == "" then Nil else User(keyspace.Core(s), name, [], true)
    ensures PlainClass(s, UserHead, w) <==> keyspace.Bare()
  {
    assert OutlineOf(s, UserHead, w.tuple) == UserParts(keyspace, hex, []);
    assert FieldPiecesOf([]) == [] && FieldNames([]) == [];
    assert TypesOf(s, [], true) == [];
  }

  lemma OddOutline(ks: Part, name: string) returns (keyspace: Piece, hex: Piece)
    requires ks.Readable() && IsBytes(name) && name != ""
    ensures HeadOf(Odd(ks, name).Text()) == UserHead
    ensures UserOutline(Odd(ks, name).Text(), FirstEnd(Odd(ks, name).Text())) == UserParts(keyspace, hex, [])
    ensures keyspace.In(Odd(ks, name).Text()) && keyspace.Core(Odd(ks, name).Text()) == ks.Text()
    ensures (keyspace.Bare() <==> ks.inside.None?) && hex.Bare() && hex.name == ToHex(name)
  {
    var part := Odd(ks, name);
    OddReadable(ks, name);
    OwnHead(part);
    UserClassHead();
    WholeHere(part.name, Suffix(part.inside));
    keyspace, hex := OddRead(part.Text(), |part.name|, "(", ks, name);
  }

  lemma OddWrapping(ks: Part, name: string)
    requires IsBytes(name)
    ensures WrappingOf(Odd(ks, name).Text()) == Wrapping(false, false, false)
  {
    UserWrapping(Suffix(Odd(ks, name).inside));
  }

  lemma OddExact(ks: Part, name: string, s: string)
    requires ks.Readable() && IsBytes(name) && name != "" && s == Odd(ks, name).Text()
    ensures ParseOne(s, true) == User(ks.Text(), name, [], true)
    ensures Plain(s) <==> ks.inside.None?
  {
    var w := Wrapping(false, false, false);
    OddWrapping(ks, name);
    var keyspace, hex := OddOutline(ks, name);
    HexRoundTrip(name);
    OddClassIs(s, w, keyspace, hex, name);
    ParseUnwrapped(s, w, UserHead);
  }

  /** A keyspace with arguments swallows what follows it: the type is not the one that the text names. */
  lemma KeyspaceSwallows(ks: Part, name: string, s: string)
    requires ks.Readable() && ks.inside.Some? && IsBytes(name) && name != "" && s == Odd(ks, name).Text()
    ensures ParseOne(s, true) == User(ks.Text(), name, [], true) && ParseOne(s, false) != ParseOne(s, true)
  {
    OddExact(ks, name, s);
    Slices(s);
  }

  lemma Slices(s: string)
    ensures Related(ParseOne(s, false), ParseOne(s, true), Plain(s))
  {
    SlicesAreHarmless(s, "");
    assert s + "" == s;
  }
}

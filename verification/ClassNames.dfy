/**
 * The type that a server class name stands for (`DataTypeClassNameParser::parse_one`,
 * `data_type_parser.cpp:286-411`). `exact` chooses how the arguments of a nested
 * name are cut out: as the original does, which takes too many characters, or as
 * they stand in the text.
 */
module ClassNames {
  import opened Options
  import opened DataTypes
  import opened ParserBase
  import opened ClassText

  /** The package of every class, and the classes in it that the parser knows. */
  const MARSHAL := "org.apache.cassandra.db.marshal."
  const REVERSED_TYPE := "ReversedType"
  const FROZEN_TYPE := "FrozenType"
  const LIST_TYPE := "ListType"
  const SET_TYPE := "SetType"
  const MAP_TYPE := "MapType"
  const USER_TYPE := "UserType"
  const TUPLE_TYPE := "TupleType"

  /** The class of each simple type without the package; `varchar` has none. */
  function ShortClass(t: SimpleType): string {
    match t
    case Ascii => "AsciiType"
    case Bigint => "LongType"
    case Blob => "BytesType"
    case Boolean => "BooleanType"
    case Counter => "CounterColumnType"
    case Decimal => "DecimalType"
    case Double => "DoubleType"
    case Float => "FloatType"
    case Int => "Int32Type"
    case Text => "UTF8Type"
    case Timestamp => "TimestampType"
    case Uuid => "UUIDType"
    case Varchar => ""
    case Varint => "IntegerType"
    case Timeuuid => "TimeUUIDType"
    case Inet => "InetAddressType"
    case Date => "SimpleDateType"
    case Time => "TimeType"
    case Smallint => "ShortType"
    case Tinyint => "ByteType"
    case Duration => "DurationType"
  }

  /** The simple types that have a class of their own. */
  const CLASS_TYPES: seq<SimpleType> := [
    Ascii, Bigint, Blob, Boolean, Counter, Decimal, Double, Float, Int, Text, Timestamp, Uuid, Varint,
    Timeuuid, Inet, Date, Time, Smallint, Tinyint, Duration]

  /** The first of some types whose class has this name in lower case. */
  function FirstNamed(types: seq<SimpleType>, s: string): Option<SimpleType> {
    if types == [] then None
    else if Lowered(ShortClass(types[0])) == s then Some(types[0])
    else FirstNamed(types[1..], s)
  }

  function ShortNamed(s: string): Option<SimpleType> {
    FirstNamed(CLASS_TYPES, s)
  }

  predicate StartsWith(s: string, prefix: string) {
    |prefix| <= |s| && s[..|prefix|] == prefix
  }

  predicate Packaged(s: string) {
    StartsWith(s, MARSHAL)
  }

  function Unpackaged(s: string): string
    requires Packaged(s)
  {
    s[|MARSHAL|..]
  }

  /** The text starts with the full name of a class, whatever follows. */
  predicate IsClass(s: string, short: string) {
    Packaged(s) && StartsWith(Unpackaged(s), short)
  }

  /** The classes of simple types are matched in full and without regard to case. */
  function ByClass(name: string): Option<SimpleType> {
    var lower := Lowered(name);
    if Packaged(lower) then ShortNamed(Unpackaged(lower)) else None
  }

  function FirstEnd(s: string): (r: nat)
    ensures r <= |s|
  {
    IdentifierEnd(s, SkipBlank(s, 0))
  }

  function FirstName(s: string): string {
    s[SkipBlank(s, 0)..FirstEnd(s)]
  }

  /** What a class name is made of, before its parts are parsed. */
  datatype Outline =
    | Bad
    | Leaf(name: string)
    | Parts(kind: Kind, list: seq<Piece>)
    | UserParts(keyspace: Piece, hex: Piece, fields: seq<FieldPiece>)

  /** The outline that the head of a text calls for. */
  function OutlineOf(s: string, head: ClassHead, tuple: bool): (r: Outline)
    ensures r.Parts? ==> forall k :: 0 <= k < |r.list| ==> Within(s, r.list[k])
    ensures r.UserParts? ==> r.keyspace.In(s) && r.hex.In(s)
    ensures r.UserParts? ==> forall k :: 0 <= k < |r.fields| ==> Within(s, r.fields[k].piece)
  {
    var params, user := TypeParams(s, FirstEnd(s)), UserOutline(s, FirstEnd(s));
    Chosen(head, FirstName(s), params, user, tuple)
  }

  function Chosen(head: ClassHead, name: string, params: Pieces, user: Outline, tuple: bool): (r: Outline)
    ensures r == user || !r.UserParts?
    ensures r == user || (r.Parts? ==> r.list <= params.list)
  {
    match head
    case CollectionHead(k) => CollectionParts(params, k)
    case UserHead => user
    case OtherHead => if tuple then TupleParts(params) else Leaf(name)
  }

  datatype ClassHead = CollectionHead(kind: Kind) | UserHead | OtherHead

  function ClassHeadOf(name: string): ClassHead {
    if IsClass(name, LIST_TYPE) then CollectionHead(List)
    else if IsClass(name, SET_TYPE) then CollectionHead(Set)
    else if IsClass(name, MAP_TYPE) then CollectionHead(Map)
    else if IsClass(name, USER_TYPE) then UserHead
    else OtherHead
  }

  function TupleParts(params: Pieces): Outline {
    if params.ok then Parts(Tuple, params.list) else Bad
  }

  /** A collection takes its first parameters and ignores any further ones. */
  function CollectionParts(params: Pieces, k: Kind): Outline {
    var n := if k == Map then 2 else 1;
    if params.ok && n <= |params.list| then Parts(k, params.list[..n]) else Bad
  }

  /** The position past one character, whatever it is. */
  function Past(i: nat): nat { i + 1 }

  /** The keyspace, the name and the fields of a user type whose parenthesis is at `i`. */
  function UserOutline(s: string, i: nat): (r: Outline)
    ensures r.UserParts? || r.Bad?
    ensures r.UserParts? ==> r.keyspace.In(s) && r.hex.In(s) && i < r.keyspace.start
    ensures r.UserParts? ==> forall k :: 0 <= k < |r.fields| ==> Within(s, r.fields[k].piece)
  {
    match ReadOne(s, Past(i))
    case None => Bad
    case Some(keyspace) =>
      match ReadOne(s, SkipBlankAndComma(s, keyspace.end, false).next)
      case None => Bad
      case Some(hex) =>
        var fields := ReadFields(s, SkipBlankAndComma(s, hex.end, false).next);
        if fields.ok then UserParts(keyspace, hex, fields.list) else Bad
  }

  /** The class inside `FrozenType` or `ReversedType`, of which there must be one. */
  function Nested(s: string): (r: Option<Piece>)
    ensures r.Some? ==> Within(s, r.value)
  {
    var list := TypeParams(s, FirstEnd(s)).list;
    if |list| == 1 then Some(list[0]) else None
  }

  /** What the first class of a text says about the rest. */
  datatype Wrapping = Wrapping(wrapped: bool, frozen: bool, tuple: bool)

  function WrappingOf(s: string): Wrapping {
    var frozen := IsClass(s, FROZEN_TYPE);
    Wrapping(frozen || IsClass(s, REVERSED_TYPE), frozen, IsClass(s, TUPLE_TYPE))
  }

  function HeadOf(s: string): ClassHead {
    ClassHeadOf(FirstName(s))
  }

  function ParseOne(s: string, exact: bool): DataType
    decreases |s|, 3
  {
    ParseWrapped(s, WrappingOf(s), exact)
  }

  function ParseWrapped(s: string, w: Wrapping, exact: bool): DataType
    decreases |s|, 2
  {
    if !w.wrapped then ParseClass(s, HeadOf(s), w, exact)
    else
      match Nested(s)
      case None => Nil
      case Some(p) =>
        var text := p.Text(s, exact);
        ShorterText(s, p, exact);
        ParseClass(text, HeadOf(text), w, exact)
  }

  function ParseClass(s: string, head: ClassHead, w: Wrapping, exact: bool): DataType
    decreases |s|, 1
  {
    match OutlineOf(s, head, w.tuple)
    case Bad => Nil
    case Leaf(name) => LeafType(name)
    case Parts(kind, list) => Gathered(kind, TypesOf(s, list, exact), w.frozen)
    case UserParts(keyspace, hex, fields) =>
      var types := TypesOf(s, FieldPiecesOf(fields), exact);
      UserOf(keyspace.Text(s, exact), hex.Text(s, exact), FieldNames(fields), types)
  }

  function TypesOf(s: string, list: seq<Piece>, exact: bool): (r: seq<DataType>)
    requires forall k :: 0 <= k < |list| ==> Within(s, list[k])
    ensures |r| == |list|
    decreases |s|, 0
  {
    seq(|list|, i requires 0 <= i < |list| =>
      ShorterText(s, list[i], exact); ParseOne(list[i].Text(s, exact), exact))
  }

  function FieldPiecesOf(fields: seq<FieldPiece>): (r: seq<Piece>)
    ensures |r| == |fields|
    ensures forall k :: 0 <= k < |fields| ==> r[k] == fields[k].piece
  {
    seq(|fields|, i requires 0 <= i < |fields| => fields[i].piece)
  }

  function FieldNames(fields: seq<FieldPiece>): (r: seq<string>)
    ensures |r| == |fields|
  {
    seq(|fields|, i requires 0 <= i < |fields| => fields[i].name)
  }

  function LeafType(name: string): DataType {
    match ByClass(name)
    case Some(t) => Simple(t)
    case None => Custom(name)
  }

  predicate NoNil(types: seq<DataType>) {
    forall k :: 0 <= k < |types| ==> types[k] != Nil
  }

  /** A tuple is always frozen; one missing part makes the whole type missing. */
  function Gathered(kind: Kind, types: seq<DataType>, frozen: bool): DataType {
    if NoNil(types) then Composite(kind, types, frozen || kind == Tuple) else Nil
  }

  function UserOf(keyspace: string, hex: string, names: seq<string>, types: seq<DataType>): DataType
    requires |names| == |types|
  {
    match FromHex(hex)
    case None => Nil
    case Some(name) =>
      if keyspace == "" || name == "" || !NoNil(types) then Nil
      else User(keyspace, name, FieldsOf(names, types), true)
  }

  function FieldsOf(names: seq<string>, types: seq<DataType>): (r: seq<Field>)
    requires |names| == |types|
    ensures |r| == |types|
    ensures forall k :: 0 <= k < |types| ==> r[k] == Field(names[k], types[k])
  {
    seq(|types|, i requires 0 <= i < |types| => Field(names[i], types[i]))
  }
}

/**
 * Column types (`data_type.hpp`): the simple types named by a CQL keyword, the
 * list, set, map and tuple types, custom types and user types, with the CQL text
 * that `to_string` gives each of them.
 */
module DataTypes {
  import opened Options

  datatype SimpleType =
    | Ascii | Bigint | Blob | Boolean | Counter | Decimal | Double | Float | Int | Text | Timestamp
    | Uuid | Varchar | Varint | Timeuuid | Inet | Date | Time | Smallint | Tinyint | Duration

  datatype Kind = List | Set | Map | Tuple

  datatype Field = Field(name: string, dataType: DataType)

  /** `Nil` is the null pointer that the parsers return for a text they refuse. */
  datatype DataType =
    | Nil
    | Simple(simple: SimpleType)
    | Custom(className: string)
    | Composite(kind: Kind, types: seq<DataType>, frozen: bool)
    | User(keyspace: string, name: string, fields: seq<Field>, frozen: bool)

  /** The user types known to a keyspace: their fields by name. */
  datatype Keyspace = Keyspace(name: string, types: map<string, seq<Field>>) {
    /** A name not yet known is added with no fields (`get_or_create_user_type`). */
    function Fields(typeName: string): seq<Field> {
      if typeName in types then types[typeName] else []
    }
  }

  const EMPTY_TYPE := "org.apache.cassandra.db.marshal.EmptyType"

  function SimpleName(t: SimpleType): string {
    match t
    case Ascii => "ascii"
    case Bigint => "bigint"
    case Blob => "blob"
    case Boolean => "boolean"
    case Counter => "counter"
    case Decimal => "decimal"
    case Double => "double"
    case Float => "float"
    case Int => "int"
    case Text => "text"
    case Timestamp => "timestamp"
    case Uuid => "uuid"
    case Varchar => "varchar"
    case Varint => "varint"
    case Timeuuid => "timeuuid"
    case Inet => "inet"
    case Date => "date"
    case Time => "time"
    case Smallint => "smallint"
    case Tinyint => "tinyint"
    case Duration => "duration"
  }

  function KindName(k: Kind): string {
    match k
    case List => "list"
    case Set => "set"
    case Map => "map"
    case Tuple => "tuple"
  }

  function Enclosed(frozen: bool, text: string): string {
    if frozen then "frozen<" + text + ">" else text
  }

  /** `to_string`. */
  function Print(t: DataType): string {
    match t
    case Nil => ""
    case Simple(s) => SimpleName(s)
    case Custom(c) => c
    case Composite(_, _, frozen) => Enclosed(frozen, PrintBody(t))
    case User(_, _, _, frozen) => Enclosed(frozen, PrintBody(t))
  }

  /** What `to_string` writes inside `frozen<` and `>`. */
  function PrintBody(t: DataType): string
    requires t.Composite? || t.User?
    decreases t, 0
  {
    match t
    case Composite(k, types, _) => KindName(k) + "<" + PrintAll(types) + ">"
    case User(_, n, _, _) => n
  }

  function PrintAll(types: seq<DataType>): string {
    if types == [] then ""
    else if |types| == 1 then Print(types[0])
    else Print(types[0]) + ", " + PrintAll(types[1..])
  }

  predicate LowerCase(s: string) {
    forall i :: 0 <= i < |s| ==> 'a' <= s[i] <= 'z'
  }

  function Lower(c: char): char {
    if 'A' <= c <= 'Z' then (c as int + 32) as char else c
  }

  function Lowered(s: string): (r: string)
    ensures |r| == |s|
    ensures LowerCase(s) ==> r == s
  {
    seq(|s|, i requires 0 <= i < |s| => Lower(s[i]))
  }

  /** The same word, letter for letter, without regard to case. */
  predicate SameLetters(a: string, b: string) {
    |a| == |b| && forall i :: 0 <= i < |a| ==> SameLetter(a[i], b[i])
  }

  predicate SameLetter(c: char, d: char) {
    || c == d
    || ('A' <= c <= 'Z' && d as int == c as int + 32)
    || ('A' <= d <= 'Z' && c as int == d as int + 32)
  }

  lemma SameLowered(a: string, b: string)
    requires SameLetters(a, b)
    ensures Lowered(a) == Lowered(b)
  {
    forall i | 0 <= i < |a|
      ensures Lower(a[i]) == Lower(b[i])
    {
      assert SameLetter(a[i], b[i]);
    }
  }

  /** The keyword table, without the entries that the cache maps to no type. */
  function SimpleNamed(s: string): Option<SimpleType> {
    if s == "ascii" then Some(Ascii)
    else if s == "bigint" then Some(Bigint)
    else if s == "blob" then Some(Blob)
    else if s == "boolean" then Some(Boolean)
    else if s == "counter" then Some(Counter)
    else if s == "decimal" then Some(Decimal)
    else if s == "double" then Some(Double)
    else if s == "float" then Some(Float)
    else if s == "int" then Some(Int)
    else if s == "text" then Some(Text)
    else if s == "timestamp" then Some(Timestamp)
    else if s == "uuid" then Some(Uuid)
    else if s == "varchar" then Some(Varchar)
    else if s == "varint" then Some(Varint)
    else if s == "timeuuid" then Some(Timeuuid)
    else if s == "inet" then Some(Inet)
    else if s == "date" then Some(Date)
    else if s == "time" then Some(Time)
    else if s == "smallint" then Some(Smallint)
    else if s == "tinyint" then Some(Tinyint)
    else if s == "duration" then Some(Duration)
    else None
  }

  /** No two keywords of the table clash, so a printed keyword finds its own type. */
  lemma NamesAreDistinct(t: SimpleType)
    ensures LowerCase(SimpleName(t)) && SimpleName(t) != ""
    ensures SimpleNamed(SimpleName(t)) == Some(t)
  {
  }

  lemma KindsAreNotSimple(k: Kind)
    ensures LowerCase(KindName(k)) && KindName(k) != ""
    ensures SimpleNamed(KindName(k)) == None
  {
  }
}

/**
 * The class names of the server, spelled out (cpp-driver/include/cassandra.h:516-543), and the types
 * that they are parsed to.
 */
module ClassLiterals {
  import opened Options
  import opened DataTypes
  import opened ClassText
  import opened ClassNames
  import opened ClassTextLemmas
  import opened ClassRoundTrip
  import opened ClassBareNames

  function Full(short: string): string { MARSHAL + short }

  lemma WholeNumberClasses()
    ensures "org.apache.cassandra.db.marshal.LongType" == Full("LongType")
    ensures "org.apache.cassandra.db.marshal.CounterColumnType" == Full("CounterColumnType")
    ensures "org.apache.cassandra.db.marshal.Int32Type" == Full("Int32Type")
    ensures "org.apache.cassandra.db.marshal.IntegerType" == Full("IntegerType")
    ensures "org.apache.cassandra.db.marshal.ShortType" == Full("ShortType")
    ensures "org.apache.cassandra.db.marshal.ByteType" == Full("ByteType")
  {
  }

  lemma NumberAndFlagClasses()
    ensures "org.apache.cassandra.db.marshal.BooleanType" == Full("BooleanType")
    ensures "org.apache.cassandra.db.marshal.DecimalType" == Full("DecimalType")
    ensures "org.apache.cassandra.db.marshal.DoubleType" == Full("DoubleType")
    ensures "org.apache.cassandra.db.marshal.FloatType" == Full("FloatType")
  {
  }

  lemma TextAndNameClasses()
    ensures "org.apache.cassandra.db.marshal.AsciiType" == Full("AsciiType")
    ensures "org.apache.cassandra.db.marshal.BytesType" == Full("BytesType")
    ensures "org.apache.cassandra.db.marshal.UTF8Type" == Full("UTF8Type")
    ensures "org.apache.cassandra.db.marshal.UUIDType" == Full("UUIDType")
    ensures "org.apache.cassandra.db.marshal.InetAddressType" == Full("InetAddressType")
  {
  }

  lemma TimeClasses()
    ensures "org.apache.cassandra.db.marshal.TimestampType" == Full("TimestampType")
    ensures "org.apache.cassandra.db.marshal.TimeUUIDType" == Full("TimeUUIDType")
    ensures "org.apache.cassandra.db.marshal.SimpleDateType" == Full("SimpleDateType")
    ensures "org.apache.cassandra.db.marshal.TimeType" == Full("TimeType")
    ensures "org.apache.cassandra.db.marshal.DurationType" == Full("DurationType")
  {
  }

  lemma KindClasses()
    ensures "org.apache.cassandra.db.marshal.ListType" == Full("ListType")
    ensures "org.apache.cassandra.db.marshal.SetType" == Full("SetType")
    ensures "org.apache.cassandra.db.marshal.MapType" == Full("MapType")
    ensures "org.apache.cassandra.db.marshal.TupleType" == Full("TupleType")
  {
  }

  lemma OtherClasses()
    ensures "org.apache.cassandra.db.marshal.UserType" == Full("UserType")
    ensures "org.apache.cassandra.db.marshal.FrozenType" == Full("FrozenType")
    ensures "org.apache.cassandra.db.marshal.ReversedType" == Full("ReversedType")
  {
  }

  lemma SimpleClass(name: string, t: SimpleType, short: string)
    requires t != Varchar && ShortClass(t) == short
    ensures name == Full(short) ==> ParseOne(name, false) == Simple(t)
  {
    assert ClassName(Simple(t)) == Full(short);
    ClassNameRoundTrip(Simple(t), "");
    assert ClassName(Simple(t)) + "" == ClassName(Simple(t));
  }

  lemma WholeNumberTypes(name: string)
    ensures name == "org.apache.cassandra.db.marshal.LongType" ==> ParseOne(name, false) == Simple(Bigint)
    ensures name == "org.apache.cassandra.db.marshal.CounterColumnType" ==> ParseOne(name, false) == Simple(Counter)
    ensures name == "org.apache.cassandra.db.marshal.Int32Type" ==> ParseOne(name, false) == Simple(Int)
    ensures name == "org.apache.cassandra.db.marshal.IntegerType" ==> ParseOne(name, false) == Simple(Varint)
    ensures name == "org.apache.cassandra.db.marshal.ShortType" ==> ParseOne(name, false) == Simple(Smallint)
    ensures name == "org.apache.cassandra.db.marshal.ByteType" ==> ParseOne(name, false) == Simple(Tinyint)
  {
    WholeNumberClasses();
    SimpleClass(name, Bigint, "LongType");
    SimpleClass(name, Counter, "CounterColumnType");
    SimpleClass(name, Int, "Int32Type");
    SimpleClass(name, Varint, "IntegerType");
    SimpleClass(name, Smallint, "ShortType");
    SimpleClass(name, Tinyint, "ByteType");
  }

  lemma NumberAndFlagTypes(name: string)
    ensures name == "org.apache.cassandra.db.marshal.BooleanType" ==> ParseOne(name, false) == Simple(Boolean)
    ensures name == "org.apache.cassandra.db.marshal.DecimalType" ==> ParseOne(name, false) == Simple(Decimal)
    ensures name == "org.apache.cassandra.db.marshal.DoubleType" ==> ParseOne(name, false) == Simple(Double)
    ensures name == "org.apache.cassandra.db.marshal.FloatType" ==> ParseOne(name, false) == Simple(Float)
  {
    NumberAndFlagClasses();
    SimpleClass(name, Boolean, "BooleanType");
    SimpleClass(name, Decimal, "DecimalType");
    SimpleClass(name, Double, "DoubleType");
    SimpleClass(name, Float, "FloatType");
  }

  lemma TextAndNameTypes(name: string)
    ensures name == "org.apache.cassandra.db.marshal.AsciiType" ==> ParseOne(name, false) == Simple(Ascii)
    ensures name == "org.apache.cassandra.db.marshal.BytesType" ==> ParseOne(name, false) == Simple(Blob)
    ensures name == "org.apache.cassandra.db.marshal.UTF8Type" ==> ParseOne(name, false) == Simple(Text)
    ensures name == "org.apache.cassandra.db.marshal.UUIDType" ==> ParseOne(name, false) == Simple(Uuid)
    ensures name == "org.apache.cassandra.db.marshal.InetAddressType" ==> ParseOne(name, false) == Simple(Inet)
  {
    TextAndNameClasses();
    SimpleClass(name, Ascii, "AsciiType");
    SimpleClass(name, Blob, "BytesType");
    SimpleClass(name, Text, "UTF8Type");
    SimpleClass(name, Uuid, "UUIDType");
    SimpleClass(name, Inet, "InetAddressType");
  }

  lemma TimeTypes(name: string)
    ensures name == "org.apache.cassandra.db.marshal.TimestampType" ==> ParseOne(name, false) == Simple(Timestamp)
    ensures name == "org.apache.cassandra.db.marshal.TimeUUIDType" ==> ParseOne(name, false) == Simple(Timeuuid)
    ensures name == "org.apache.cassandra.db.marshal.SimpleDateType" ==> ParseOne(name, false) == Simple(Date)
    ensures name == "org.apache.cassandra.db.marshal.TimeType" ==> ParseOne(name, false) == Simple(Time)
    ensures name == "org.apache.cassandra.db.marshal.DurationType" ==> ParseOne(name, false) == Simple(Duration)
  {
    TimeClasses();
    SimpleClass(name, Timestamp, "TimestampType");
    SimpleClass(name, Timeuuid, "TimeUUIDType");
    SimpleClass(name, Date, "SimpleDateType");
    SimpleClass(name, Time, "TimeType");
    SimpleClass(name, Duration, "DurationType");
  }

  /** The table of class names, as it stands in the public header. */
  lemma ClassTypes(name: string)
    ensures name == "org.apache.cassandra.db.marshal.AsciiType" ==> ParseOne(name, false) == Simple(Ascii)
    ensures name == "org.apache.cassandra.db.marshal.LongType" ==> ParseOne(name, false) == Simple(Bigint)
    ensures name == "org.apache.cassandra.db.marshal.BytesType" ==> ParseOne(name, false) == Simple(Blob)
    ensures name == "org.apache.cassandra.db.marshal.BooleanType" ==> ParseOne(name, false) == Simple(Boolean)
    ensures name == "org.apache.cassandra.db.marshal.CounterColumnType" ==> ParseOne(name, false) == Simple(Counter)
    ensures name == "org.apache.cassandra.db.marshal.DecimalType" ==> ParseOne(name, false) == Simple(Decimal)
    ensures name == "org.apache.cassandra.db.marshal.DoubleType" ==> ParseOne(name, false) == Simple(Double)
    ensures name == "org.apache.cassandra.db.marshal.FloatType" ==> ParseOne(name, false) == Simple(Float)
    ensures name == "org.apache.cassandra.db.marshal.Int32Type" ==> ParseOne(name, false) == Simple(Int)
    ensures name == "org.apache.cassandra.db.marshal.UTF8Type" ==> ParseOne(name, false) == Simple(Text)
    ensures name == "org.apache.cassandra.db.marshal.TimestampType" ==> ParseOne(name, false) == Simple(Timestamp)
    ensures name == "org.apache.cassandra.db.marshal.UUIDType" ==> ParseOne(name, false) == Simple(Uuid)
    ensures name == "org.apache.cassandra.db.marshal.IntegerType" ==> ParseOne(name, false) == Simple(Varint)
    ensures name == "org.apache.cassandra.db.marshal.TimeUUIDType" ==> ParseOne(name, false) == Simple(Timeuuid)
    ensures name == "org.apache.cassandra.db.marshal.InetAddressType" ==> ParseOne(name, false) == Simple(Inet)
    ensures name == "org.apache.cassandra.db.marshal.SimpleDateType" ==> ParseOne(name, false) == Simple(Date)
    ensures name == "org.apache.cassandra.db.marshal.TimeType" ==> ParseOne(name, false) == Simple(Time)
    ensures name == "org.apache.cassandra.db.marshal.ShortType" ==> ParseOne(name, false) == Simple(Smallint)
    ensures name == "org.apache.cassandra.db.marshal.ByteType" ==> ParseOne(name, false) == Simple(Tinyint)
    ensures name == "org.apache.cassandra.db.marshal.DurationType" ==> ParseOne(name, false) == Simple(Duration)
  {
    WholeNumberTypes(name);
    NumberAndFlagTypes(name);
    TextAndNameTypes(name);
    TimeTypes(name);
  }

  /** Case does not matter for them. */
  lemma ClassesInAnyCase(a: string, b: string)
    requires SameLetters(a, b)
    ensures ByClass(a) == ByClass(b)
  {
    SameLowered(a, b);
  }

  // Types with parameters

  lemma ParsedAs(t: DataType, name: string)
    requires Nameable(t)
    ensures name == ClassName(t) ==> ParseOne(name, false) == t
  {
    ClassNameRoundTrip(t, "");
    assert ClassName(t) + "" == ClassName(t);
  }

  lemma KindText(k: Kind, types: seq<DataType>)
    requires Nameable(Composite(k, types, k == Tuple))
    ensures ClassName(Composite(k, types, k == Tuple)) == Full(ShortKind(k)) + "(" + Joined(PartsOf(types)) + ")"
  {
    var t := Composite(k, types, k == Tuple);
    assert PartOf(t) == BodyOf(t);
    assert BodyOf(t) == Part(Full(ShortKind(k)), Some(Joined(PartsOf(types))));
    Spliced(Full(ShortKind(k)), Joined(PartsOf(types)));
  }

  lemma OneInside(k: Kind, a: DataType, name: string, short: string)
    requires Nameable(a) && (k == List || k == Set) && ShortKind(k) == short
    ensures name == Full(short) + "(" + ClassName(a) + ")" ==> ParseOne(name, false) == Composite(k, [a], false)
  {
    assert Joined(PartsOf([a])) == ClassName(a);
    KindText(k, [a]);
    ParsedAs(Composite(k, [a], false), name);
  }

  lemma JoinedTwo(a: Part, b: Part)
    ensures Joined([a, b]) == a.Text() + "," + b.Text()
  {
    assert [a, b][1..] == [b];
  }

  lemma TwoInside(k: Kind, a: DataType, b: DataType, name: string, short: string)
    requires Nameable(a) && Nameable(b) && (k == Map || k == Tuple) && ShortKind(k) == short
    ensures name == Full(short) + "(" + (ClassName(a) + "," + ClassName(b)) + ")" ==>
              ParseOne(name, false) == Composite(k, [a, b], k == Tuple)
  {
    assert PartsOf([a, b]) == [PartOf(a), PartOf(b)];
    JoinedTwo(PartOf(a), PartOf(b));
    KindText(k, [a, b]);
    ParsedAs(Composite(k, [a, b], k == Tuple), name);
  }

  lemma Spliced(head: string, inside: string)
    ensures head + "(" + inside + ")" == head + ("(" + inside + ")")
  {
  }

  /** The classes of the collections and of tuples take the classes of their parts in parentheses. */
  lemma KindTypes(name: string, a: DataType, b: DataType)
    requires Nameable(a) && Nameable(b)
    ensures name == "org.apache.cassandra.db.marshal.ListType" + "(" + ClassName(a) + ")" ==>
              ParseOne(name, false) == Composite(List, [a], false)
    ensures name == "org.apache.cassandra.db.marshal.SetType" + "(" + ClassName(a) + ")" ==>
              ParseOne(name, false) == Composite(Set, [a], false)
    ensures name == "org.apache.cassandra.db.marshal.MapType" + "(" + (ClassName(a) + "," + ClassName(b)) + ")" ==>
              ParseOne(name, false) == Composite(Map, [a, b], false)
    ensures name == "org.apache.cassandra.db.marshal.TupleType" + "(" + (ClassName(a) + "," + ClassName(b)) + ")" ==>
              ParseOne(name, false) == Composite(Tuple, [a, b], true)
  {
    KindClasses();
    OneInside(List, a, name, "ListType");
    OneInside(Set, a, name, "SetType");
    TwoInside(Map, a, b, name, "MapType");
    TwoInside(Tuple, a, b, name, "TupleType");
  }

  lemma FrozenList(a: DataType, name: string)
    requires Nameable(a)
    ensures name == Full("FrozenType") + "(" + (Full("ListType") + "(" + ClassName(a) + ")") + ")" ==>
              ParseOne(name, false) == Composite(List, [a], true)
  {
    var t := Composite(List, [a], true);
    assert Joined(PartsOf([a])) == ClassName(a);
    Spliced(Full("ListType"), ClassName(a));
    Spliced(Full("FrozenType"), BodyOf(t).Text());
    ClassNameRoundTrip(t, "");
    assert ClassName(t) + "" == ClassName(t);
  }

  lemma UserWithoutFields(ks: string, n: string, name: string)
    requires IsIdentifier(ks) && ks != "" && IsBytes(n) && n != ""
    ensures name == Full("UserType") + "(" + (ks + "," + ToHex(n)) + ")" ==>
              ParseOne(name, false) == User(ks, n, [], true)
  {
    var t := User(ks, n, [], true);
    assert ks + "," + ToHex(n) + FieldsText([]) == ks + "," + ToHex(n);
    Spliced(Full("UserType"), ks + "," + ToHex(n));
    ClassNameRoundTrip(t, "");
    assert ClassName(t) + "" == ClassName(t);
  }

  lemma SimpleNameFacts(t: SimpleType, inner: string)
    requires t != Varchar && inner == MARSHAL + ShortClass(t)
    ensures IsIdentifier(inner) && inner != "" && ClassHeadOf(inner) == OtherHead && ByClass(inner) == Some(t)
  {
    ShortIsIdentifier(t);
    MarshalName(ShortClass(t));
    SimpleIsOrdinary(t);
    OrdinaryHead(ShortClass(t));
    SimpleByClass(t);
  }

  lemma SimpleText(t: SimpleType)
    requires t != Varchar
    ensures ClassName(Simple(t)) == MARSHAL + ShortClass(t)
  {
  }

  lemma OuterFacts(outer: string, inner: string)
    requires outer == FROZEN_TYPE || outer == REVERSED_TYPE
    ensures IsIdentifier(Full(outer)) && Full(outer) != ""
    ensures var w := WrappingOf(Full(outer) + ("(" + inner + ")")); w.wrapped && !w.tuple
  {
    OuterName(outer);
    OuterWrapping(outer, "(" + inner + ")");
  }

  /** A simple class is the same type inside `FrozenType` and `ReversedType`. */
  lemma WrappedSimple(outer: string, t: SimpleType, name: string)
    requires (outer == FROZEN_TYPE || outer == REVERSED_TYPE) && t != Varchar
    ensures name == Full(outer) + "(" + ClassName(Simple(t)) + ")" ==> ParseOne(name, false) == Simple(t)
  {
    var inner := ClassName(Simple(t));
    SimpleText(t);
    SimpleNameFacts(t, inner);
    OuterFacts(outer, inner);
    Spliced(Full(outer), inner);
    WrappedName(Full(outer), inner, t);
  }

  lemma WrappedName(outer: string, inner: string, t: SimpleType)
    requires IsIdentifier(outer) && outer != "" && IsIdentifier(inner) && inner != ""
    requires var w := WrappingOf(outer + ("(" + inner + ")")); w.wrapped && !w.tuple
    requires ClassHeadOf(inner) == OtherHead && ByClass(inner) == Some(t)
    ensures ParseOne(outer + ("(" + inner + ")"), false) == Simple(t)
  {
    var s := outer + ("(" + inner + ")");
    var nested := Part(inner, None);
    var p := NestedPiece(outer, nested, s);
    BareStands(s, p, inner);
    BareHead(inner);
    ShorterText(s, p, false);
    LeafAlone(inner, WrappingOf(s), inner);
  }

  /** The classes around other classes, and the class of user types. */
  lemma OuterTypes(name: string, a: DataType, t: SimpleType, ks: string, n: string)
    requires Nameable(a) && t != Varchar && IsIdentifier(ks) && ks != "" && IsBytes(n) && n != ""
    ensures name == "org.apache.cassandra.db.marshal.FrozenType" + "("
                    + ("org.apache.cassandra.db.marshal.ListType" + "(" + ClassName(a) + ")") + ")" ==>
              ParseOne(name, false) == Composite(List, [a], true)
    ensures name == "org.apache.cassandra.db.marshal.ReversedType" + "(" + ClassName(Simple(t)) + ")" ==>
              ParseOne(name, false) == Simple(t)
    ensures name == "org.apache.cassandra.db.marshal.UserType" + "(" + (ks + "," + ToHex(n)) + ")" ==>
              ParseOne(name, false) == User(ks, n, [], true)
  {
    KindClasses();
    OtherClasses();
    FrozenList(a, name);
    WrappedSimple("ReversedType", t, name);
    UserWithoutFields(ks, n, name);
  }

  /** The digits of the names of user types, in either case. */
  lemma HexAlphabet(n: nat, c: char)
    requires n < 16
    ensures HexValue("0123456789abcdef"[n]) == n == HexValue("0123456789ABCDEF"[n])
    ensures c !in "0123456789abcdef" && c !in "0123456789ABCDEF" <==> HexValue(c) == -1
  {
    if HexValue(c) >= 0 {
      var k := HexValue(c);
      assert c == "0123456789abcdef"[k] || c == "0123456789ABCDEF"[k];
    }
  }
}

/**
 * The keywords of CQL type names, spelled out (cpp-driver/include/cassandra.h:516-543), and the types
 * that they are parsed to.
 */
module CqlKeywords {
  import opened Options
  import opened DataTypes
  import opened ParserBase
  import opened CqlText
  import opened CqlParser
  import opened CqlRoundTrip

  // Simple types

  lemma LettersAreBare(a: string, b: string)
    requires LowerCase(a) && a != "" && SameLetters(a, b)
    ensures BareName(b)
  {
    forall i | 0 <= i < |b|
      ensures IsIdentifierChar(b[i])
    {
      assert SameLetter(a[i], b[i]);
    }
  }

  lemma Keyword(word: string, t: SimpleType, name: string, ks: Keyspace, frozen: bool)
    requires SimpleName(t) == name
    ensures SameLetters(name, word) ==> Parse(word, ks, frozen) == Simple(t)
  {
    if SameLetters(name, word) {
      NamesAreDistinct(t);
      SimpleIsKeyword(t);
      SameLowered(name, word);
      LettersAreBare(name, word);
      HeadRead(word, word, "");
    }
  }

  lemma FirstKeywords(word: string, ks: Keyspace, frozen: bool)
    ensures SameLetters("ascii", word) ==> Parse(word, ks, frozen) == Simple(Ascii)
    ensures SameLetters("bigint", word) ==> Parse(word, ks, frozen) == Simple(Bigint)
    ensures SameLetters("blob", word) ==> Parse(word, ks, frozen) == Simple(Blob)
    ensures SameLetters("boolean", word) ==> Parse(word, ks, frozen) == Simple(Boolean)
    ensures SameLetters("counter", word) ==> Parse(word, ks, frozen) == Simple(Counter)
    ensures SameLetters("decimal", word) ==> Parse(word, ks, frozen) == Simple(Decimal)
    ensures SameLetters("double", word) ==> Parse(word, ks, frozen) == Simple(Double)
  {
    Keyword(word, Ascii, "ascii", ks, frozen);
    Keyword(word, Bigint, "bigint", ks, frozen);
    Keyword(word, Blob, "blob", ks, frozen);
    Keyword(word, Boolean, "boolean", ks, frozen);
    Keyword(word, Counter, "counter", ks, frozen);
    Keyword(word, Decimal, "decimal", ks, frozen);
    Keyword(word, Double, "double", ks, frozen);
  }

  lemma NextKeywords(word: string, ks: Keyspace, frozen: bool)
    ensures SameLetters("float", word) ==> Parse(word, ks, frozen) == Simple(Float)
    ensures SameLetters("int", word) ==> Parse(word, ks, frozen) == Simple(Int)
    ensures SameLetters("text", word) ==> Parse(word, ks, frozen) == Simple(Text)
    ensures SameLetters("timestamp", word) ==> Parse(word, ks, frozen) == Simple(Timestamp)
    ensures SameLetters("uuid", word) ==> Parse(word, ks, frozen) == Simple(Uuid)
    ensures SameLetters("varchar", word) ==> Parse(word, ks, frozen) == Simple(Varchar)
    ensures SameLetters("varint", word) ==> Parse(word, ks, frozen) == Simple(Varint)
  {
    Keyword(word, Float, "float", ks, frozen);
    Keyword(word, Int, "int", ks, frozen);
    Keyword(word, Text, "text", ks, frozen);
    Keyword(word, Timestamp, "timestamp", ks, frozen);
    Keyword(word, Uuid, "uuid", ks, frozen);
    Keyword(word, Varchar, "varchar", ks, frozen);
    Keyword(word, Varint, "varint", ks, frozen);
  }

  lemma LastKeywords(word: string, ks: Keyspace, frozen: bool)
    ensures SameLetters("timeuuid", word) ==> Parse(word, ks, frozen) == Simple(Timeuuid)
    ensures SameLetters("inet", word) ==> Parse(word, ks, frozen) == Simple(Inet)
    ensures SameLetters("date", word) ==> Parse(word, ks, frozen) == Simple(Date)
    ensures SameLetters("time", word) ==> Parse(word, ks, frozen) == Simple(Time)
    ensures SameLetters("smallint", word) ==> Parse(word, ks, frozen) == Simple(Smallint)
    ensures SameLetters("tinyint", word) ==> Parse(word, ks, frozen) == Simple(Tinyint)
    ensures SameLetters("duration", word) ==> Parse(word, ks, frozen) == Simple(Duration)
  {
    Keyword(word, Timeuuid, "timeuuid", ks, frozen);
    Keyword(word, Inet, "inet", ks, frozen);
    Keyword(word, Date, "date", ks, frozen);
    Keyword(word, Time, "time", ks, frozen);
    Keyword(word, Smallint, "smallint", ks, frozen);
    Keyword(word, Tinyint, "tinyint", ks, frozen);
    Keyword(word, Duration, "duration", ks, frozen);
  }

  /** The table of keywords, in any case, as it stands in the public header. */
  lemma KeywordTypes(word: string, ks: Keyspace, frozen: bool)
    ensures SameLetters("ascii", word) ==> Parse(word, ks, frozen) == Simple(Ascii)
    ensures SameLetters("bigint", word) ==> Parse(word, ks, frozen) == Simple(Bigint)
    ensures SameLetters("blob", word) ==> Parse(word, ks, frozen) == Simple(Blob)
    ensures SameLetters("boolean", word) ==> Parse(word, ks, frozen) == Simple(Boolean)
    ensures SameLetters("counter", word) ==> Parse(word, ks, frozen) == Simple(Counter)
    ensures SameLetters("decimal", word) ==> Parse(word, ks, frozen) == Simple(Decimal)
    ensures SameLetters("double", word) ==> Parse(word, ks, frozen) == Simple(Double)
    ensures SameLetters("float", word) ==> Parse(word, ks, frozen) == Simple(Float)
    ensures SameLetters("int", word) ==> Parse(word, ks, frozen) == Simple(Int)
    ensures SameLetters("text", word) ==> Parse(word, ks, frozen) == Simple(Text)
    ensures SameLetters("timestamp", word) ==> Parse(word, ks, frozen) == Simple(Timestamp)
    ensures SameLetters("uuid", word) ==> Parse(word, ks, frozen) == Simple(Uuid)
    ensures SameLetters("varchar", word) ==> Parse(word, ks, frozen) == Simple(Varchar)
    ensures SameLetters("varint", word) ==> Parse(word, ks, frozen) == Simple(Varint)
    ensures SameLetters("timeuuid", word) ==> Parse(word, ks, frozen) == Simple(Timeuuid)
    ensures SameLetters("inet", word) ==> Parse(word, ks, frozen) == Simple(Inet)
    ensures SameLetters("date", word) ==> Parse(word, ks, frozen) == Simple(Date)
    ensures SameLetters("time", word) ==> Parse(word, ks, frozen) == Simple(Time)
    ensures SameLetters("smallint", word) ==> Parse(word, ks, frozen) == Simple(Smallint)
    ensures SameLetters("tinyint", word) ==> Parse(word, ks, frozen) == Simple(Tinyint)
    ensures SameLetters("duration", word) ==> Parse(word, ks, frozen) == Simple(Duration)
  {
    FirstKeywords(word, ks, frozen);
    NextKeywords(word, ks, frozen);
    LastKeywords(word, ks, frozen);
  }

  // Types with parameters

  lemma BodyAs(k: Kind, types: seq<DataType>, text: string, name: string, ks: Keyspace, frozen: bool)
    requires KindName(k) == name && Arity(k, |types|)
    requires forall i :: 0 <= i < |types| ==> Complete(types[i]) && Known(types[i], ks)
    ensures text == name + "<" + PrintAll(types) + ">" ==> Parse(text, ks, frozen) == Composite(k, types, frozen)
  {
    ParseBody(Composite(k, types, false), ks, frozen);
  }

  lemma PrintedTwo(a: DataType, b: DataType)
    ensures PrintAll([a, b]) == Print(a) + ", " + Print(b)
  {
    assert [a, b][1..] == [b];
  }

  /** A collection or tuple is its keyword and its parts in angle brackets; `frozen` is put around it. */
  lemma KindKeywords(text: string, a: DataType, b: DataType, ks: Keyspace, frozen: bool)
    requires Complete(a) && Known(a, ks) && Complete(b) && Known(b, ks)
    ensures text == "list" + "<" + Print(a) + ">" ==> Parse(text, ks, frozen) == Composite(List, [a], frozen)
    ensures text == "set" + "<" + Print(a) + ">" ==> Parse(text, ks, frozen) == Composite(Set, [a], frozen)
    ensures text == "map" + "<" + (Print(a) + ", " + Print(b)) + ">" ==>
              Parse(text, ks, frozen) == Composite(Map, [a, b], frozen)
    ensures text == "tuple" + "<" + (Print(a) + ", " + Print(b)) + ">" ==>
              Parse(text, ks, frozen) == Composite(Tuple, [a, b], frozen)
  {
    PrintedTwo(a, b);
    BodyAs(List, [a], text, "list", ks, frozen);
    BodyAs(Set, [a], text, "set", ks, frozen);
    BodyAs(Map, [a, b], text, "map", ks, frozen);
    BodyAs(Tuple, [a, b], text, "tuple", ks, frozen);
  }

  lemma FrozenKeyword(t: DataType, ks: Keyspace)
    requires Complete(t) && Known(t, ks) && (t.Composite? || t.User?)
    ensures Parse("frozen<" + PrintBody(t) + ">", ks, false) == t.(frozen := true)
  {
    var f := t.(frozen := true);
    assert Print(f) == "frozen<" + PrintBody(t) + ">" by {
      assert PrintBody(f) == PrintBody(t);
    }
    RoundTrip(f, ks);
  }

  /** A list or set has one part, a map two, and a tuple at least one; otherwise there is no type. */
  lemma PartsAreCounted(k: Kind, types: seq<DataType>, ks: Keyspace, frozen: bool)
    requires types != [] && forall i :: 0 <= i < |types| ==> Tidy(types[i])
    ensures Parse(KindName(k) + "<" + PrintAll(types) + ">", ks, frozen) == Nil
            <==> (if k == Tuple then false else if k == Map then |types| != 2 else |types| != 1)
  {
    var text := KindName(k) + "<" + PrintAll(types) + ">";
    KindIsKeyword(k);
    BracketText(KindName(k), PrintAll(types));
    assert text == KindName(k) + ("<" + PrintAll(types) + ">");
    HeadRead(text, KindName(k), "<" + PrintAll(types) + ">");
    TypesRead(KindName(k), types);
  }

  // Other words

  lemma OnlyNamed(word: string)
    ensures SimpleNamed(word).Some? ==> SimpleName(SimpleNamed(word).value) == word
  {
  }

  /** Any other word is the name of a user type of the keyspace. */
  lemma OtherWords(word: string, ks: Keyspace, frozen: bool)
    requires BareName(word) && Lowered(word) != "frozen" && Lowered(word) != "empty"
    requires (forall t :: Lowered(word) != SimpleName(t)) && forall k :: Lowered(word) != KindName(k)
    ensures Parse(word, ks, frozen) == User(ks.name, word, ks.Fields(word), frozen)
  {
    OnlyNamed(Lowered(word));
    HeadRead(word, word, "");
    OtherWordHead(word);
  }

  lemma OtherWordHead(word: string)
    requires word != "" && word[0] != '\'' && SimpleNamed(Lowered(word)) == None
    requires Lowered(word) != "frozen" && Lowered(word) != "empty"
    requires forall k :: Lowered(word) != KindName(k)
    ensures Classify(word) == CqlParser.UserHead
  {
    var w := Lowered(word);
    assert w != KindName(List) && w != KindName(Set) && w != KindName(Map) && w != KindName(Tuple);
    assert w != "";
  }

  // Class names in quotes

  lemma {:induction false} QuoteCloses(s: string, i: nat)
    requires i < |s| && s[|s| - 1] == '\'' && forall k :: i <= k < |s| - 1 ==> s[k] != '\''
    ensures SingleQuotedEnd(s, i) == |s|
    decreases |s| - i
  {
    if s[i] != '\'' {
      QuoteCloses(s, i + 1);
    }
  }

  lemma QuotedIsCustom(name: string)
    requires name != "" && name[0] == '\''
    ensures Classify(name) == CustomHead
  {
    var word := Lowered(name);
    assert word[0] == '\'';
    NoKeyword(word);
  }

  lemma NoKeyword(word: string)
    requires word != "" && !('a' <= word[0] <= 'z')
    ensures SimpleNamed(word) == None && word != "list" && word != "set" && word != "map" && word != "tuple"
    ensures word != "frozen" && word != "empty"
  {
  }

  /** A class name in single quotes is the custom type of that class. */
  lemma QuotedClass(c: string, ks: Keyspace, frozen: bool)
    requires '\'' !in c
    ensures Parse("'" + c + "'", ks, frozen) == Custom(c)
  {
    var text := "'" + c + "'";
    assert forall k :: 0 <= k < |c| ==> text[k + 1] == c[k];
    assert forall k :: 1 <= k < |text| - 1 ==> text[k] == c[k - 1];
    QuoteCloses(text, 1);
    QuotedIsCustom(text);
    assert text[0..|text|] == text;
    assert text[1..|text| - 1] == c;
    assert SkipBlank(text, 0) == 0;
  }

  lemma EmptyKeyword(word: string, ks: Keyspace, frozen: bool)
    ensures word == "empty" ==> Parse(word, ks, frozen) == Custom("org.apache.cassandra.db.marshal.EmptyType")
  {
    if word == "empty" {
      EmptyIsKeyword(word);
      HeadRead(word, word, "");
    }
  }

  lemma EmptyIsKeyword(word: string)
    requires word == "empty"
    ensures Classify(word) == EmptyHead && IsName(word)
  {
    LowerCaseIsBare(word);
  }
}

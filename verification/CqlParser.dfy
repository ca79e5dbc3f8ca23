/**
 * The CQL type-name parser (`DataTypeCqlNameParser`): the cursor class with its
 * loops, the recursive parse, and the function of the text that it computes.
 */
module CqlParser {
  import opened Options
  import opened DataTypes
  import opened ParserBase
  import opened CqlText

  /** What the first name of a text announces. */
  datatype Head =
    | SimpleHead(simple: SimpleType)
    | KindHead(kind: Kind)
    | FrozenHead
    | NoHead
    | EmptyHead
    | CustomHead
    | UserHead

  /** Keywords are matched without regard to case. */
  function Classify(name: string): Head {
    var word := Lowered(name);
    match SimpleNamed(word)
    case Some(t) => SimpleHead(t)
    case None =>
      if word == "list" then KindHead(List)
      else if word == "set" then KindHead(Set)
      else if word == "map" then KindHead(Map)
      else if word == "tuple" then KindHead(Tuple)
      else if word == "frozen" then FrozenHead
      else if word == "" then NoHead
      else if word == "empty" then EmptyHead
      else if name[0] == '\'' then CustomHead
      else UserHead
  }

  /** The number of parameters that each kind takes. */
  predicate Arity(k: Kind, n: nat) {
    match k
    case List => n == 1
    case Set => n == 1
    case Map => n == 2
    case Tuple => n >= 1
  }

  /** A quoted name without its first character and the one that is taken for its closing quote. */
  function Unquoted(name: string): string
    requires name != ""
  {
    if |name| == 1 then "" else name[1..|name| - 1]
  }

  function Parse(text: string, ks: Keyspace, frozen: bool): DataType
    decreases |text|
  {
    var start := SkipBlank(text, 0);
    var end := NameEnd(text, start);
    ParseNamed(text, text[start..end], end, ks, frozen)
  }

  /** The type of a text whose first name is `name` and ends at `end`. */
  function ParseNamed(text: string, name: string, end: nat, ks: Keyspace, frozen: bool): DataType
    requires end <= |text|
    decreases |text|, 0
  {
    match Classify(name)
    case SimpleHead(t) => Simple(t)
    case KindHead(k) =>
      var params := TypeParams(text, end);
      if Arity(k, |params|)
      then Composite(k, seq(|params|, i requires 0 <= i < |params| => Parse(params[i], ks, false)), frozen)
      else Nil
    case FrozenHead =>
      var params := TypeParams(text, end);
      if |params| == 1 then Parse(params[0], ks, true) else Nil
    case NoHead => Nil
    case EmptyHead => Custom(EMPTY_TYPE)
    case CustomHead => Custom(Unquoted(name))
    case UserHead => User(ks.name, name, ks.Fields(name), frozen)
  }

  method ReadDoubleQuoted(cursor: Cursor)
    requires cursor.index <= |cursor.text|
    modifies cursor
    ensures cursor.index <= |cursor.text|
    ensures cursor.index == QuotedEnd(cursor.text, old(cursor.index))
  {
    while cursor.index < |cursor.text|
      invariant cursor.index <= |cursor.text|
      invariant QuotedEnd(cursor.text, cursor.index) == QuotedEnd(cursor.text, old(cursor.index))
    {
      var isQuote := cursor.text[cursor.index] == '"';
      cursor.index := cursor.index + 1;
      if isQuote {
        if cursor.index < |cursor.text| && cursor.text[cursor.index] == '"' {
          cursor.index := cursor.index + 1;
        } else {
          break;
        }
      }
    }
  }

  method ReadSingleQuoted(cursor: Cursor)
    requires cursor.index <= |cursor.text|
    modifies cursor
    ensures cursor.index <= |cursor.text|
    ensures cursor.index == SingleQuotedEnd(cursor.text, old(cursor.index))
  {
    while cursor.index < |cursor.text|
      invariant cursor.index <= |cursor.text|
      invariant SingleQuotedEnd(cursor.text, cursor.index) == SingleQuotedEnd(cursor.text, old(cursor.index))
    {
      cursor.index := cursor.index + 1;
      if cursor.text[cursor.index - 1] == '\'' {
        break;
      }
    }
  }

  method ReadNextIdentifier(cursor: Cursor) returns (name: string)
    requires cursor.index <= |cursor.text|
    modifies cursor
    ensures cursor.index <= |cursor.text|
    ensures cursor.index == NameEnd(cursor.text, old(cursor.index))
    ensures name == cursor.text[old(cursor.index)..cursor.index]
  {
    var start := cursor.index;
    if At(cursor.text, start) == '"' {
      cursor.index := cursor.index + 1;
      ReadDoubleQuoted(cursor);
    } else if At(cursor.text, start) == '\'' {
      cursor.index := cursor.index + 1;
      ReadSingleQuoted(cursor);
    } else {
      while
        && cursor.index < |cursor.text|
        && (IsIdentifierChar(cursor.text[cursor.index]) || cursor.text[cursor.index] == '"')
        invariant start <= cursor.index <= |cursor.text|
        invariant BareEnd(cursor.text, cursor.index) == BareEnd(cursor.text, start)
      {
        cursor.index := cursor.index + 1;
      }
    }
    name := cursor.text[start..cursor.index];
  }

  method ParseTypeName(cursor: Cursor) returns (name: string)
    requires cursor.index <= |cursor.text|
    modifies cursor
    ensures cursor.index <= |cursor.text|
    ensures cursor.index == NameEnd(cursor.text, SkipBlank(cursor.text, old(cursor.index)))
    ensures name == cursor.text[SkipBlank(cursor.text, old(cursor.index))..cursor.index]
  {
    cursor.SkipBlanks();
    name := ReadNextIdentifier(cursor);
  }

  /** The bracket count of `read_raw_type_parameters`. */
  method ReadRawTypeParameters(cursor: Cursor) returns (ok: bool, params: string)
    requires cursor.index <= |cursor.text|
    modifies cursor
    ensures cursor.index <= |cursor.text|
    ensures ok <==> RawEnd(cursor.text, SkipBlank(cursor.text, old(cursor.index))).Some?
    ensures ok ==> RawEnd(cursor.text, SkipBlank(cursor.text, old(cursor.index))) == Some(cursor.index)
    ensures ok ==> params == cursor.text[SkipBlank(cursor.text, old(cursor.index))..cursor.index]
  {
    cursor.SkipBlanks();
    params := "";
    if cursor.index == |cursor.text| || cursor.text[cursor.index] == '>' || cursor.text[cursor.index] == ',' {
      return true, params;
    }
    if cursor.text[cursor.index] != '<' {
      return false, params;
    }
    var start := cursor.index;
    var open, inQuotes := 1, false;
    while open > 0
      invariant start <= cursor.index < |cursor.text|
      invariant open > 0 ==>
        Close(cursor.text, cursor.index + 1, Brackets(open, inQuotes))
        == Close(cursor.text, start + 1, Brackets(1, false))
      invariant open <= 0 ==> Close(cursor.text, start + 1, Brackets(1, false)) == Some(cursor.index + 1)
      decreases |cursor.text| - cursor.index
    {
      cursor.index := cursor.index + 1;
      if cursor.index == |cursor.text| {
        return false, params;
      }
      if !inQuotes {
        if cursor.text[cursor.index] == '"' {
          inQuotes := true;
        } else if cursor.text[cursor.index] == '<' {
          open := open + 1;
        } else if cursor.text[cursor.index] == '>' {
          open := open - 1;
        }
      } else if cursor.text[cursor.index] == '"' {
        inQuotes := false;
      }
    }
    cursor.index := cursor.index + 1;
    params := cursor.text[start..cursor.index];
    ok := true;
  }

  /** One round of the loop of `parse_type_parameters`. */
  method ReadOne(cursor: Cursor) returns (param: Option<Param>)
    requires cursor.index <= |cursor.text|
    modifies cursor
    ensures cursor.index <= |cursor.text|
    ensures param == ReadParam(cursor.text, old(cursor.index))
    ensures param.Some? ==> cursor.index == param.value.next
  {
    var name := ParseTypeName(cursor);
    var ok, args := ReadRawTypeParameters(cursor);
    param := if ok then Some(Param(name + args, cursor.index)) else None;
  }

  /** The parameters up to the closing bracket, the cursor being past the opening one. */
  method ReadParams(cursor: Cursor) returns (params: seq<string>)
    requires cursor.index <= |cursor.text|
    modifies cursor
    ensures cursor.index <= |cursor.text|
    ensures params == Params(cursor.text, old(cursor.index))
  {
    params := [];
    var more := cursor.SkipBlanksAndComma();
    ghost var before := old(cursor.index);
    while more && cursor.text[cursor.index] != '>'
      invariant cursor.index <= |cursor.text| && before <= |cursor.text|
      invariant SkipBlankAndComma(cursor.text, before, false) == Skipped(more, cursor.index)
      invariant Params(cursor.text, old(cursor.index)) == params + Params(cursor.text, before)
      decreases |cursor.text| - before
    {
      var param := ReadOne(cursor);
      if param.None? {
        return;
      }
      Prefixed(params, param.value.text, Params(cursor.text, param.value.next));
      params := params + [param.value.text];
      before := cursor.index;
      more := cursor.SkipBlanksAndComma();
    }
    if more {
      cursor.index := cursor.index + 1;
    }
  }

  method ParseTypeParameters(cursor: Cursor) returns (params: seq<string>)
    requires cursor.index <= |cursor.text|
    modifies cursor
    ensures cursor.index <= |cursor.text|
    ensures params == TypeParams(cursor.text, old(cursor.index))
  {
    if cursor.index == |cursor.text| {
      return [];
    }
    var _ := cursor.SkipBlanksAndComma();
    if At(cursor.text, cursor.index) != '<' {
      return [];
    }
    cursor.index := cursor.index + 1;
    params := ReadParams(cursor);
  }

  lemma Prefixed<T>(a: seq<T>, x: T, b: seq<T>)
    ensures a + ([x] + b) == (a + [x]) + b
  {
  }

  /** The types of a list of parameters, each shorter than the text they come from. */
  method ParseEach(params: seq<string>, ks: Keyspace, ghost limit: nat) returns (types: seq<DataType>)
    requires forall k :: 0 <= k < |params| ==> |params[k]| < limit
    ensures |types| == |params|
    ensures forall k :: 0 <= k < |types| ==> types[k] == Parse(params[k], ks, false)
    decreases limit, 0
  {
    types := [];
    for i := 0 to |params|
      invariant |types| == i
      invariant forall k :: 0 <= k < i ==> types[k] == Parse(params[k], ks, false)
    {
      var t := ParseCqlName(params[i], ks, false);
      types := types + [t];
    }
  }

  /** `DataTypeCqlNameParser::parse`. */
  method ParseCqlName(text: string, ks: Keyspace, frozen: bool) returns (t: DataType)
    ensures t == Parse(text, ks, frozen)
    decreases |text|
  {
    var cursor := new Cursor(text);
    var name := ParseTypeName(cursor);
    match Classify(name) {
      case SimpleHead(s) => t := Simple(s);
      case KindHead(k) =>
        var params := ParseTypeParameters(cursor);
        if !Arity(k, |params|) {
          return Nil;
        }
        var types := ParseEach(params, ks, |text|);
        t := Composite(k, types, frozen);
      case FrozenHead =>
        var params := ParseTypeParameters(cursor);
        if |params| != 1 {
          return Nil;
        }
        t := ParseCqlName(params[0], ks, true);
      case NoHead => t := Nil;
      case EmptyHead => t := Custom(EMPTY_TYPE);
      case CustomHead => t := Custom(Unquoted(name));
      case UserHead => t := User(ks.name, name, ks.Fields(name), frozen);
    }
  }
}

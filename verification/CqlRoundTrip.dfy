/**
 * Printing and parsing are inverse: the text that `to_string` gives a type parses
 * back to that type, and what was parsed from any text prints to a text that
 * parses to the same type again.
 */
module CqlRoundTrip {
  import opened Options
  import opened DataTypes
  import opened ParserBase
  import opened CqlText
  import opened TextPlaces
  import opened CqlParser

  /** An unquoted name. */
  predicate BareName(n: string) {
    n != "" && forall i :: 0 <= i < |n| ==> IsIdentifierChar(n[i])
  }

  /** The rest of a quoted name: doubled quotes only, then the closing quote. */
  predicate QuotedTail(n: string) {
    if |n| < 2 then n == "\""
    else if n[0] != '"' then QuotedTail(n[1..])
    else n[1] == '"' && QuotedTail(n[2..])
  }

  predicate IsName(n: string) {
    BareName(n) || (n != "" && n[0] == '"' && QuotedTail(n[1..]))
  }

  /** No part is missing, and every user type and custom type has a proper name. */
  predicate Tidy(t: DataType) {
    match t
    case Nil => false
    case Simple(_) => true
    case Custom(c) => IsName(c)
    case Composite(_, types, _) => forall i :: 0 <= i < |types| ==> Tidy(types[i])
    case User(_, n, _, _) => IsName(n)
  }

  predicate NoCustom(t: DataType) {
    match t
    case Custom(_) => false
    case Composite(_, types, _) => forall i :: 0 <= i < |types| ==> NoCustom(types[i])
    case _ => true
  }

  /** No part is missing or custom, and every user type has a proper name. */
  predicate Complete(t: DataType) {
    Tidy(t) && NoCustom(t)
  }

  /** The types that the keyspace can hold: right number of parameters, user types that it knows. */
  predicate Known(t: DataType, ks: Keyspace) {
    match t
    case Nil => true
    case Simple(_) => true
    case Custom(_) => true
    case Composite(k, types, _) =>
      Arity(k, |types|) && forall i :: 0 <= i < |types| ==> Known(types[i], ks)
    case User(keyspace, n, fields, _) =>
      keyspace == ks.name && fields == ks.Fields(n) && Classify(n) == UserHead
  }

  // Names

  /** A name ends here: at the end of the text or before a bracket or a comma. */
  predicate Ends(s: string, i: nat) {
    i == |s| || (i < |s| && (s[i] == ',' || s[i] == '<' || s[i] == '>'))
  }

  lemma {:induction false} BareRead(s: string, i: nat, n: string)
    requires Here(s, i, n) && Ends(s, i + |n|)
    requires forall k :: 0 <= k < |n| ==> IsIdentifierChar(n[k])
    ensures BareEnd(s, i) == i + |n|
    decreases |n|
  {
    if n != "" {
      HereAt(s, i, n);
      HereTail(s, i, n, 1);
      BareRead(s, i + 1, n[1..]);
    }
  }

  lemma {:induction false} QuotedRead(s: string, i: nat, n: string)
    requires Here(s, i, n) && Ends(s, i + |n|) && QuotedTail(n)
    ensures QuotedEnd(s, i) == i + |n|
    decreases |n|
  {
    HereAt(s, i, n);
    HereTail(s, i, n, 1);
    if |n| >= 2 && n[0] != '"' {
      QuotedRead(s, i + 1, n[1..]);
    } else if |n| >= 2 {
      HereAt(s, i + 1, n[1..]);
      HereTail(s, i, n, 2);
      QuotedRead(s, i + 2, n[2..]);
    }
  }

  lemma NameRead(s: string, i: nat, n: string)
    requires Here(s, i, n) && Ends(s, i + |n|) && IsName(n)
    ensures NameEnd(s, i) == i + |n| && i < |s| && s[i] == n[0]
  {
    HereAt(s, i, n);
    if BareName(n) {
      assert IsIdentifierChar(n[0]);
      BareRead(s, i, n);
    } else {
      HereTail(s, i, n, 1);
      QuotedRead(s, i + 1, n[1..]);
    }
  }

  // Brackets

  /** The brackets after a text that never closes the outermost one. */
  function Through(b: Brackets, p: string): Option<Brackets>
    decreases |p|
  {
    if p == "" then Some(b)
    else
      var after := b.Over(p[0]);
      if after.open <= 0 then None else Through(after, p[1..])
  }

  lemma {:induction false} ThroughConcat(b: Brackets, p: string, q: string)
    requires Through(b, p).Some?
    ensures Through(b, p + q) == Through(Through(b, p).value, q)
    decreases |p|
  {
    if p == "" {
      assert p + q == q;
    } else {
      assert (p + q)[1..] == p[1..] + q;
      ThroughConcat(b.Over(p[0]), p[1..], q);
    }
  }

  lemma {:induction false} CloseThrough(s: string, i: nat, p: string, b: Brackets, after: Brackets)
    requires Here(s, i, p) && Through(b, p) == Some(after)
    ensures Close(s, i, b) == Close(s, i + |p|, after)
    decreases |p|
  {
    if p != "" {
      HereAt(s, i, p);
      HereTail(s, i, p, 1);
      CloseThrough(s, i + 1, p[1..], b.Over(p[0]), after);
    }
  }

  lemma {:induction false} PlainThrough(b: Brackets, p: string)
    requires b.open > 0
    requires forall k :: 0 <= k < |p| ==> p[k] != '"' && p[k] != '<' && p[k] != '>'
    ensures Through(b, p) == Some(b)
    decreases |p|
  {
    if p != "" {
      PlainThrough(b, p[1..]);
    }
  }

  lemma {:induction false} QuotedThrough(open: int, n: string)
    requires open > 0 && QuotedTail(n)
    ensures Through(Brackets(open, true), n) == Some(Brackets(open, false))
    decreases |n|
  {
    if |n| < 2 {
      assert n[1..] == "";
    } else if n[0] != '"' {
      QuotedThrough(open, n[1..]);
    } else {
      assert n[1..][1..] == n[2..];
      QuotedThrough(open, n[2..]);
    }
  }

  lemma NameThrough(open: int, n: string)
    requires open > 0 && IsName(n)
    ensures Through(Brackets(open, false), n) == Some(Brackets(open, false))
  {
    if BareName(n) {
      assert forall k :: 0 <= k < |n| ==> IsIdentifierChar(n[k]);
      PlainThrough(Brackets(open, false), n);
    } else {
      QuotedThrough(open, n[1..]);
    }
  }

  /** A text that leaves the bracket count as it was, wherever it stands. */
  ghost predicate Balanced(p: string) {
    forall open: int {:trigger Through(Brackets(open, false), p)} ::
      open > 0 ==> Through(Brackets(open, false), p) == Some(Brackets(open, false))
  }

  lemma BalancedConcat(p: string, q: string)
    requires Balanced(p) && Balanced(q)
    ensures Balanced(p + q)
  {
    forall open: int | open > 0
      ensures Through(Brackets(open, false), p + q) == Some(Brackets(open, false))
    {
      ThroughConcat(Brackets(open, false), p, q);
    }
  }

  lemma NameBalanced(n: string)
    requires IsName(n)
    ensures Balanced(n)
  {
    forall open: int | open > 0
      ensures Through(Brackets(open, false), n) == Some(Brackets(open, false))
    {
      NameThrough(open, n);
    }
  }

  lemma BracketedBalanced(p: string)
    requires Balanced(p)
    ensures Balanced("<" + p + ">")
  {
    forall open: int | open > 0
      ensures Through(Brackets(open, false), "<" + p + ">") == Some(Brackets(open, false))
    {
      var b := Brackets(open, false);
      var deeper := Brackets(open + 1, false);
      calc {
        Through(b, "<" + p + ">");
        { assert "<" + p + ">" == "<" + (p + ">"); assert ("<" + (p + ">"))[1..] == p + ">"; }
        Through(deeper, p + ">");
        { assert Through(deeper, p) == Some(deeper); ThroughConcat(deeper, p, ">"); }
        Through(deeper, ">");
        { assert ">"[1..] == ""; }
        Some(b);
      }
    }
  }

  // The parts of a printed type

  /** A name, and what stands in brackets after it when anything does. */
  datatype Part = Part(head: string, inside: Option<string>) {
    function Text(): string {
      head + Suffix(inside)
    }

    ghost predicate Readable() {
      IsName(head) && (inside.Some? ==> Balanced(inside.value))
    }
  }

  function Suffix(inside: Option<string>): string {
    match inside
    case None => ""
    case Some(p) => "<" + p + ">"
  }

  function PartOf(t: DataType): Part {
    match t
    case Nil => Part("", None)
    case Simple(s) => Part(SimpleName(s), None)
    case Custom(c) => Part(c, None)
    case Composite(k, types, frozen) =>
      if frozen then Part("frozen", Some(PrintBody(t))) else Part(KindName(k), Some(PrintAll(types)))
    case User(_, n, _, frozen) => if frozen then Part("frozen", Some(n)) else Part(n, None)
  }

  lemma BracketText(head: string, p: string)
    ensures head + "<" + p + ">" == Part(head, Some(p)).Text()
  {
    assert head + "<" + p + ">" == head + ("<" + p + ">");
  }

  lemma FrozenText(p: string)
    ensures Enclosed(true, p) == Part("frozen", Some(p)).Text()
  {
    assert "frozen<" == "frozen" + "<";
    BracketText("frozen", p);
  }

  lemma PartsText(t: DataType)
    ensures Print(t) == PartOf(t).Text()
  {
    match t
    case Nil =>
    case Simple(_) =>
    case Custom(_) =>
    case Composite(k, types, frozen) =>
      FrozenText(PrintBody(t));
      BracketText(KindName(k), PrintAll(types));
    case User(_, n, _, frozen) =>
      FrozenText(n);
  }

  lemma LowerCaseIsBare(n: string)
    requires LowerCase(n) && n != ""
    ensures BareName(n)
  {
  }

  lemma FrozenIsKeyword()
    ensures Classify("frozen") == FrozenHead && BareName("frozen")
  {
    LowerCaseIsBare("frozen");
  }

  lemma KindIsKeyword(k: Kind)
    ensures Classify(KindName(k)) == KindHead(k) && BareName(KindName(k))
  {
    KindsAreNotSimple(k);
    LowerCaseIsBare(KindName(k));
  }

  lemma SimpleIsKeyword(t: SimpleType)
    ensures Classify(SimpleName(t)) == SimpleHead(t) && BareName(SimpleName(t))
  {
    NamesAreDistinct(t);
    LowerCaseIsBare(SimpleName(t));
  }

  lemma {:induction false} PrintAllBalanced(types: seq<DataType>)
    requires forall i :: 0 <= i < |types| ==> Tidy(types[i])
    ensures Balanced(PrintAll(types))
    decreases types
  {
    if |types| == 1 {
      PrintBalanced(types[0]);
    } else if |types| > 1 {
      PrintBalanced(types[0]);
      PrintAllBalanced(types[1..]);
      CommaBalanced();
      BalancedConcat(Print(types[0]), ", ");
      BalancedConcat(Print(types[0]) + ", ", PrintAll(types[1..]));
    }
  }

  lemma CommaBalanced()
    ensures Balanced(", ")
  {
    forall open: int | open > 0
      ensures Through(Brackets(open, false), ", ") == Some(Brackets(open, false))
    {
      PlainThrough(Brackets(open, false), ", ");
    }
  }

  lemma ReadableBalanced(p: Part)
    requires p.Readable()
    ensures Balanced(p.Text())
  {
    NameBalanced(p.head);
    match p.inside
    case None => assert p.Text() == p.head;
    case Some(inside) =>
      BracketedBalanced(inside);
      BalancedConcat(p.head, "<" + inside + ">");
  }

  lemma {:induction false} BodyReadable(t: DataType)
    requires Tidy(t) && t.Composite?
    ensures Part(KindName(t.kind), Some(PrintAll(t.types))).Readable()
    decreases t, 0
  {
    KindIsKeyword(t.kind);
    PrintAllBalanced(t.types);
  }

  lemma {:induction false} PartReadable(t: DataType)
    requires Tidy(t)
    ensures PartOf(t).Readable()
    decreases t, 1
  {
    FrozenIsKeyword();
    match t
    case Simple(s) => SimpleIsKeyword(s);
    case Composite(k, types, _) =>
      var body := Part(KindName(k), Some(PrintAll(types)));
      BodyReadable(t);
      ReadableBalanced(body);
      BracketText(KindName(k), PrintAll(types));
    case User(_, n, _, _) => NameBalanced(n);
    case Custom(_) =>
  }

  lemma {:induction false} PrintBalanced(t: DataType)
    requires Tidy(t)
    ensures Balanced(Print(t))
    decreases t, 2
  {
    PartsText(t);
    PartReadable(t);
    ReadableBalanced(PartOf(t));
  }

  // Reading the printed parameters back

  /** The raw reading stops exactly after the printed brackets, and takes nothing when there are none. */
  lemma SuffixRead(s: string, i: nat, inside: Option<string>)
    requires Here(s, i, Suffix(inside)) && Separated(s, i + |Suffix(inside)|)
    requires inside.Some? ==> Balanced(inside.value)
    ensures RawEnd(s, i) == Some(i + |Suffix(inside)|) && SkipBlank(s, i) == i
    ensures Ends(s, i)
  {
    match inside
    case None =>
    case Some(p) =>
      assert "<" + p + ">" == "<" + (p + ">");
      HereSplit(s, i, "<", p + ">");
      HereSplit(s, i + 1, p, ">");
      HereAt(s, i, "<");
      HereAt(s, i + 1 + |p|, ">");
      BracketsRead(s, i, p);
  }

  lemma BracketsRead(s: string, i: nat, p: string)
    requires i + 1 + |p| < |s| && s[i] == '<' && Here(s, i + 1, p) && s[i + 1 + |p|] == '>' && Balanced(p)
    ensures RawEnd(s, i) == Some(i + |p| + 2)
  {
    var b := Brackets(1, false);
    assert Through(b, p) == Some(b);
    calc {
      RawEnd(s, i);
      { RawOpens(s, i); }
      Close(s, i + 1, b);
      { CloseThrough(s, i + 1, p, b, b); }
      Close(s, i + 1 + |p|, b);
      { CloseHere(s, i + 1 + |p|); }
      Some(i + |p| + 2);
    }
  }

  lemma RawOpens(s: string, i: nat)
    requires i < |s| && s[i] == '<'
    ensures RawEnd(s, i) == Close(s, i + 1, Brackets(1, false))
  {
  }

  lemma CloseHere(s: string, i: nat)
    requires i < |s| && s[i] == '>'
    ensures Close(s, i, Brackets(1, false)) == Some(i + 1)
  {
  }

  /** A parameter is over: a comma or the closing bracket follows. */
  predicate Separated(s: string, i: nat) {
    i < |s| && (s[i] == ',' || s[i] == '>')
  }

  lemma NameStart(n: string)
    requires IsName(n)
    ensures !IsBlank(n[0]) && n[0] != ',' && n[0] != '>'
  {
    if BareName(n) {
      assert IsIdentifierChar(n[0]);
    }
  }

  lemma TwoSlices(s: string, i: nat, p: string, q: string)
    requires Here(s, i, p) && Here(s, i + |p|, q)
    ensures s[i..i + |p|] + s[i + |p|..i + |p| + |q|] == p + q
  {
  }

  /** The next thing to read is neither a blank nor a comma. */
  predicate StartsParam(s: string, i: nat) {
    i < |s| && !IsBlank(s[i]) && s[i] != ','
  }

  lemma ReadParamIs(s: string, i: nat, end: nat, next: nat)
    requires i <= end <= next <= |s| && SkipBlank(s, i) == i && NameEnd(s, i) == end
    requires SkipBlank(s, end) == end && RawEnd(s, end) == Some(next)
    ensures ReadParam(s, i) == Some(Param(s[i..end] + s[end..next], next))
  {
  }

  lemma ParamsStep(s: string, i: nat, p: Param)
    requires i < |s| && !IsBlank(s[i]) && s[i] != ',' && s[i] != '>' && ReadParam(s, i) == Some(p)
    ensures Params(s, i) == [p.text] + Params(s, p.next)
  {
    assert SkipBlankAndComma(s, i, false) == Skipped(true, i);
  }

  lemma ParamsEnd(s: string, i: nat)
    requires i < |s| && s[i] == '>'
    ensures Params(s, i) == []
  {
  }

  lemma ParamsStart(s: string, i: nat)
    requires i < |s| && s[i] == '<'
    ensures TypeParams(s, i) == Params(s, i + 1)
  {
    assert SkipBlankAndComma(s, i, false) == Skipped(true, i);
  }

  lemma ParamRead(s: string, i: nat, p: Part)
    requires p.Readable() && Here(s, i, p.Text()) && Separated(s, i + |p.Text()|)
    ensures i < |s| && !IsBlank(s[i]) && s[i] != ',' && s[i] != '>'
    ensures ReadParam(s, i) == Some(Param(p.Text(), i + |p.Text()|))
  {
    var head, suffix := p.head, Suffix(p.inside);
    HereSplit(s, i, head, suffix);
    SuffixRead(s, i + |head|, p.inside);
    NameRead(s, i, head);
    NameStart(head);
    TwoSlices(s, i, head, suffix);
    ReadParamIs(s, i, i + |head|, i + |head| + |suffix|);
  }

  function Joined(parts: seq<Part>): string {
    if parts == [] then ""
    else if |parts| == 1 then parts[0].Text()
    else parts[0].Text() + ", " + Joined(parts[1..])
  }

  function Texts(parts: seq<Part>): (r: seq<string>)
    ensures |r| == |parts|
    ensures forall k :: 0 <= k < |parts| ==> r[k] == parts[k].Text()
  {
    if parts == [] then [] else [parts[0].Text()] + Texts(parts[1..])
  }

  lemma Regroup(text: string, rest: string)
    ensures text + ", " + rest + ">" == text + (", " + (rest + ">"))
  {
  }

  /** The list of parameters is read back, whatever stands before it. */
  lemma {:induction false} ParamsRead(s: string, i: nat, parts: seq<Part>)
    requires parts != [] && forall k :: 0 <= k < |parts| ==> parts[k].Readable()
    requires Here(s, i, Joined(parts) + ">")
    ensures StartsParam(s, i) && Params(s, i) == Texts(parts)
    decreases |parts|
  {
    if |parts| == 1 {
      LastParamRead(s, i, parts[0]);
      assert Texts(parts) == [parts[0].Text()];
    } else {
      var next := i + |parts[0].Text()| + 2;
      var rest := Joined(parts[1..]);
      RestHere(s, i, parts[0].Text(), rest);
      ParamsRead(s, next, parts[1..]);
      ParamsCons(s, i, parts[0], rest, next, Texts(parts[1..]));
    }
  }

  lemma RestHere(s: string, i: nat, text: string, rest: string)
    requires Here(s, i, text + ", " + rest + ">")
    ensures Here(s, i + |text| + 2, rest + ">")
  {
    JoinedHere(s, i, text, rest);
  }

  lemma ParamsCons(s: string, i: nat, p: Part, rest: string, next: nat, tail: seq<string>)
    requires p.Readable() && Here(s, i, p.Text() + ", " + rest + ">")
    requires next == i + |p.Text()| + 2 && StartsParam(s, next) && Params(s, next) == tail
    ensures StartsParam(s, i) && Params(s, i) == [p.Text()] + tail
  {
    FirstParamRead(s, i, p, rest);
    ParamThenComma(s, i, p.Text());
  }

  lemma ParamThenComma(s: string, i: nat, text: string)
    requires StartsParam(s, i) && s[i] != '>' && ReadParam(s, i) == Some(Param(text, i + |text|))
    requires StartsParam(s, i + |text| + 2) && s[i + |text|] == ',' && s[i + |text| + 1] == ' '
    ensures Params(s, i) == [text] + Params(s, i + |text| + 2)
  {
    ParamsStep(s, i, Param(text, i + |text|));
    ParamsAfterComma(s, i + |text|);
  }

  lemma JoinedHere(s: string, i: nat, text: string, rest: string)
    requires Here(s, i, text + ", " + rest + ">")
    ensures Here(s, i, text) && Here(s, i + |text|, ", ") && Here(s, i + |text| + 2, rest + ">")
  {
    Regroup(text, rest);
    HereSplit(s, i, text, ", " + (rest + ">"));
    HereSplit(s, i + |text|, ", ", rest + ">");
  }

  lemma LastParamRead(s: string, i: nat, p: Part)
    requires p.Readable() && Here(s, i, p.Text() + ">")
    ensures StartsParam(s, i) && Params(s, i) == [p.Text()]
  {
    var text := p.Text();
    HereSplit(s, i, text, ">");
    HereAt(s, i + |text|, ">");
    ParamRead(s, i, p);
    ParamThenEnd(s, i, text);
  }

  lemma ParamThenEnd(s: string, i: nat, text: string)
    requires StartsParam(s, i) && s[i] != '>' && ReadParam(s, i) == Some(Param(text, i + |text|))
    requires i + |text| < |s| && s[i + |text|] == '>'
    ensures Params(s, i) == [text]
  {
    ParamsStep(s, i, Param(text, i + |text|));
    ParamsEnd(s, i + |text|);
  }

  lemma FirstParamRead(s: string, i: nat, p: Part, rest: string)
    requires p.Readable() && Here(s, i, p.Text() + ", " + rest + ">")
    ensures StartsParam(s, i) && s[i] != '>' && i + |p.Text()| + 1 < |s|
    ensures s[i + |p.Text()|] == ',' && s[i + |p.Text()| + 1] == ' '
    ensures ReadParam(s, i) == Some(Param(p.Text(), i + |p.Text()|))
  {
    JoinedHere(s, i, p.Text(), rest);
    CommaRead(s, i + |p.Text()|);
    ParamRead(s, i, p);
  }

  lemma CommaRead(s: string, i: nat)
    requires Here(s, i, ", ")
    ensures s[i] == ',' && s[i + 1] == ' '
  {
    assert s[i..i + 2][0] == s[i];
    assert s[i..i + 2][1] == s[i + 1];
  }

  lemma ParamsAfterComma(s: string, i: nat)
    requires i + 2 < |s| && s[i] == ',' && s[i + 1] == ' ' && !IsBlank(s[i + 2]) && s[i + 2] != ','
    ensures Params(s, i) == Params(s, i + 2)
  {
    assert SkipBlankAndComma(s, i + 1, true) == SkipBlankAndComma(s, i + 2, true) == Skipped(true, i + 2);
    assert SkipBlankAndComma(s, i, false) == Skipped(true, i + 2);
    assert SkipBlankAndComma(s, i + 2, false) == Skipped(true, i + 2);
  }

  function PartsOf(types: seq<DataType>): (r: seq<Part>)
    ensures |r| == |types|
    ensures forall k :: 0 <= k < |types| ==> r[k] == PartOf(types[k])
  {
    if types == [] then [] else [PartOf(types[0])] + PartsOf(types[1..])
  }

  lemma {:induction false} PrintAllIsJoined(types: seq<DataType>)
    ensures PrintAll(types) == Joined(PartsOf(types))
  {
    if types != [] {
      PartsText(types[0]);
      PrintAllIsJoined(types[1..]);
    }
  }

  // The round trip

  /** The first name of a text that starts with a name and goes on with a bracket, or not at all. */
  lemma HeadRead(text: string, head: string, suffix: string)
    requires IsName(head) && text == head + suffix
    requires suffix != "" ==> suffix[0] == '<'
    ensures SkipBlank(text, 0) == 0 && NameEnd(text, 0) == |head| && text[0..|head|] == head
    ensures suffix != "" ==> text[|head|] == '<'
  {
    assert text[0..|text|] == head + suffix;
    HereSplit(text, 0, head, suffix);
    assert suffix != "" ==> text[|head|] == suffix[0];
    NameRead(text, 0, head);
    if BareName(head) {
      assert IsIdentifierChar(head[0]);
    }
  }

  lemma BracketParams(text: string, i: nat, parts: seq<Part>)
    requires parts != [] && forall k :: 0 <= k < |parts| ==> parts[k].Readable()
    requires i < |text| && text[i] == '<' && Here(text, i + 1, Joined(parts) + ">")
    ensures TypeParams(text, i) == Texts(parts)
  {
    ParamsRead(text, i + 1, parts);
    ParamsStart(text, i);
  }

  lemma Inside(text: string, head: string, inner: string)
    requires text == Part(head, Some(inner)).Text()
    ensures |head| < |text| && text[|head|] == '<' && Here(text, |head| + 1, inner + ">")
  {
    assert text == (head + "<") + (inner + ">");
    assert text[|head| + 1..] == inner + ">";
  }

  lemma TypesRead(head: string, types: seq<DataType>)
    requires IsName(head) && types != [] && forall k :: 0 <= k < |types| ==> Tidy(types[k])
    ensures |TypeParams(Part(head, Some(PrintAll(types))).Text(), |head|)| == |types|
    ensures forall k :: 0 <= k < |types| ==>
      TypeParams(Part(head, Some(PrintAll(types))).Text(), |head|)[k] == Print(types[k])
  {
    forall k | 0 <= k < |types|
      ensures PartsOf(types)[k].Readable() && PartsOf(types)[k].Text() == Print(types[k])
    {
      PartReadable(types[k]);
      PartsText(types[k]);
    }
    PrintAllIsJoined(types);
    var text := Part(head, Some(PrintAll(types))).Text();
    Inside(text, head, PrintAll(types));
    BracketParams(text, |head|, PartsOf(types));
  }

  /** The parse of a text whose first name is a kind and whose parameters are known. */
  lemma ParseComposite(text: string, k: Kind, params: seq<string>, types: seq<DataType>, ks: Keyspace, frozen: bool)
    requires SkipBlank(text, 0) == 0 && NameEnd(text, 0) == |KindName(k)| && text[0..|KindName(k)|] == KindName(k)
    requires TypeParams(text, |KindName(k)|) == params && |params| == |types| && Arity(k, |types|)
    requires forall i :: 0 <= i < |types| ==> Parse(params[i], ks, false) == types[i]
    ensures Parse(text, ks, frozen) == Composite(k, types, frozen)
  {
    KindIsKeyword(k);
    assert seq(|params|, i requires 0 <= i < |params| => Parse(params[i], ks, false)) == types;
  }

  lemma {:induction false} ParseBody(t: DataType, ks: Keyspace, frozen: bool)
    requires Complete(t) && Known(t, ks) && (t.Composite? || t.User?)
    ensures Parse(PrintBody(t), ks, frozen) == t.(frozen := frozen)
    decreases t, 0
  {
    var text := PrintBody(t);
    if t.User? {
      assert text == t.name + "";
      HeadRead(text, t.name, "");
    } else {
      var head, types := KindName(t.kind), t.types;
      BracketText(head, PrintAll(types));
      KindIsKeyword(t.kind);
      HeadRead(text, head, Suffix(Some(PrintAll(types))));
      TypesRead(head, types);
      var params := TypeParams(text, |head|);
      forall i | 0 <= i < |types|
        ensures Parse(params[i], ks, false) == types[i]
      {
        RoundTrip(types[i], ks);
      }
      ParseComposite(text, t.kind, params, types, ks, frozen);
    }
  }

  /** Parsing what `to_string` prints gives the type back, frozen flags included, at any depth. */
  lemma {:induction false} RoundTrip(t: DataType, ks: Keyspace)
    requires Complete(t) && Known(t, ks)
    ensures Parse(Print(t), ks, false) == t
    decreases t, 1
  {
    match t
    case Simple(s) =>
      SimpleIsKeyword(s);
      assert Print(t) == SimpleName(s) + "";
      HeadRead(Print(t), SimpleName(s), "");
    case Composite(_, _, frozen) =>
      ParseBody(t, ks, frozen);
      FrozenParse(t, ks);
    case User(_, _, _, frozen) =>
      ParseBody(t, ks, frozen);
      FrozenParse(t, ks);
  }

  lemma FrozenParse(t: DataType, ks: Keyspace)
    requires Tidy(t) && (t.Composite? || t.User?)
    ensures t.frozen ==> Parse(Print(t), ks, false) == Parse(PrintBody(t), ks, true)
  {
    if t.frozen {
      var thawed := t.(frozen := false);
      assert Print(thawed) == PrintBody(thawed) == PrintBody(t);
      assert PrintAll([thawed]) == Print(thawed);
      FrozenText(PrintBody(t));
      FrozenIsKeyword();
      HeadRead(Print(t), "frozen", Suffix(Some(PrintBody(t))));
      TypesRead("frozen", [thawed]);
    }
  }

  /** Every result of the parser has the shape that the round trip needs. */
  lemma {:induction false} ParsedIsKnown(text: string, ks: Keyspace, frozen: bool)
    ensures Known(Parse(text, ks, frozen), ks)
    decreases |text|
  {
    var start := SkipBlank(text, 0);
    var end := NameEnd(text, start);
    var params := TypeParams(text, end);
    match Classify(text[start..end])
    case KindHead(k) =>
      forall i | 0 <= i < |params|
        ensures Known(Parse(params[i], ks, false), ks)
      {
        ParsedIsKnown(params[i], ks, false);
      }
    case FrozenHead =>
      if |params| == 1 {
        ParsedIsKnown(params[0], ks, true);
      }
    case _ =>
  }

  /** Printing what was parsed from any text, and parsing again, changes nothing. */
  lemma Reparse(text: string, ks: Keyspace, frozen: bool)
    requires Complete(Parse(text, ks, frozen))
    ensures Parse(Print(Parse(text, ks, frozen)), ks, false) == Parse(text, ks, frozen)
  {
    ParsedIsKnown(text, ks, frozen);
    RoundTrip(Parse(text, ks, frozen), ks);
  }

  /** A custom type prints its bare class name, which never parses back to it. */
  lemma {:induction false} CustomIsShorter(text: string, ks: Keyspace, frozen: bool)
    requires Parse(text, ks, frozen).Custom?
    ensures Parse(text, ks, frozen).className == EMPTY_TYPE || |Parse(text, ks, frozen).className| < |text|
    decreases |text|
  {
    var start := SkipBlank(text, 0);
    var end := NameEnd(text, start);
    if Classify(text[start..end]) == FrozenHead {
      CustomIsShorter(TypeParams(text, end)[0], ks, true);
    }
  }

  lemma CustomIsLost(className: string, ks: Keyspace)
    ensures Parse(Print(Custom(className)), ks, false) != Custom(className)
  {
    if className == EMPTY_TYPE {
      EmptyTypeIsUser(ks);
    } else if Parse(className, ks, false).Custom? {
      CustomIsShorter(className, ks, false);
    }
  }

  /** A type with a custom part anywhere is not read back. */
  lemma {:induction false} CustomPartIsLost(t: DataType, ks: Keyspace)
    requires Tidy(t) && Known(t, ks) && !NoCustom(t)
    ensures Parse(Print(t), ks, false) != t
    decreases t
  {
    match t
    case Custom(c) => CustomIsLost(c, ks);
    case Composite(k, types, frozen) =>
      FrozenParse(t, ks);
      PartsParse(t, ks, frozen);
      var i :| 0 <= i < |types| && !NoCustom(types[i]);
      CustomPartIsLost(types[i], ks);
      assert Parse(PrintBody(t), ks, frozen).types[i] != types[i];
  }

  /** The parts of a collection or tuple are parsed from what they print, each by itself. */
  lemma PartsParse(t: DataType, ks: Keyspace, frozen: bool)
    requires Tidy(t) && t.Composite? && Arity(t.kind, |t.types|)
    ensures var back := Parse(PrintBody(t), ks, frozen);
            && back.Composite? && |back.types| == |t.types|
            && forall i :: 0 <= i < |t.types| ==> back.types[i] == Parse(Print(t.types[i]), ks, false)
  {
    var text, head, types := PrintBody(t), KindName(t.kind), t.types;
    BracketText(head, PrintAll(types));
    KindIsKeyword(t.kind);
    HeadRead(text, head, Suffix(Some(PrintAll(types))));
    TypesRead(head, types);
    var parsed := seq(|types|, i requires 0 <= i < |types| => Parse(Print(types[i]), ks, false));
    ParseComposite(text, t.kind, TypeParams(text, |head|), parsed, ks, frozen);
  }

  /**
   * The round trip holds exactly for the types without custom parts that the keyspace knows, with
   * the right number of parameters everywhere.
   */
  lemma RoundTripExactly(t: DataType, ks: Keyspace)
    requires Tidy(t)
    ensures Parse(Print(t), ks, false) == t <==> Known(t, ks) && NoCustom(t)
  {
    ParsedIsKnown(Print(t), ks, false);
    if Known(t, ks) {
      if NoCustom(t) {
        RoundTrip(t, ks);
      } else {
        CustomPartIsLost(t, ks);
      }
    }
  }

  lemma LongNameIsUser(n: string, ks: Keyspace)
    requires BareName(n) && |n| > 9
    ensures Parse(n, ks, false).User?
  {
    assert n == n + "";
    assert IsIdentifierChar(n[0]);
    HeadRead(n, n, "");
    assert |Lowered(n)| > 9;
  }

  lemma EmptyTypeIsUser(ks: Keyspace)
    ensures Parse(EMPTY_TYPE, ks, false).User?
  {
    EmptyTypeIsBare();
    LongNameIsUser(EMPTY_TYPE, ks);
  }

  lemma EmptyTypeIsBare()
    ensures BareName(EMPTY_TYPE) && |EMPTY_TYPE| == 41
  {
  }

  // Names that no text is read as

  /** The parser can read this as one name, to its end. */
  predicate NameLike(n: string) {
    n != "" && NameEnd(n, 0) == |n|
  }

  predicate NamesLike(t: DataType) {
    match t
    case Composite(_, types, _) => forall i :: 0 <= i < |types| ==> NamesLike(types[i])
    case User(_, n, _, _) => NameLike(n)
    case _ => true
  }

  lemma {:induction false} BareSlice(s: string, a: nat, i: nat, end: nat)
    requires a <= i <= |s| && BareEnd(s, i) == end
    ensures BareEnd(s[a..end], i - a) == end - a
    decreases |s| - i
  {
    if i < end {
      BareSlice(s, a, i + 1, end);
    }
  }

  lemma {:induction false} QuotedSlice(s: string, a: nat, i: nat, end: nat)
    requires a <= i <= |s| && QuotedEnd(s, i) == end
    ensures QuotedEnd(s[a..end], i - a) == end - a
    decreases |s| - i
  {
    if i < |s| {
      assert s[a..end][i - a] == s[i];
      if s[i] != '"' {
        QuotedSlice(s, a, i + 1, end);
      } else if i + 1 < |s| && s[i + 1] == '"' {
        QuotedSlice(s, a, i + 2, end);
        assert s[a..end][i + 1 - a] == s[i + 1];
      }
    }
  }

  lemma NameSlice(s: string, i: nat, end: nat)
    requires i <= |s| && NameEnd(s, i) == end && i < end && s[i] != '\''
    ensures NameLike(s[i..end])
  {
    if s[i] == '"' {
      QuotedSlice(s, i, i + 1, end);
    } else {
      BareSlice(s, i, i, end);
    }
  }

  lemma UserNameLike(s: string, i: nat, end: nat)
    requires i <= |s| && NameEnd(s, i) == end && Classify(s[i..end]) == UserHead
    ensures NameLike(s[i..end])
  {
    UserWord(s[i..end]);
    NameSlice(s, i, end);
  }

  lemma UserWord(name: string)
    requires Classify(name) == UserHead
    ensures name != "" && name[0] != '\''
  {
    assert name == "" ==> Lowered(name) == "";
  }

  lemma {:induction false} ParsedNames(text: string, ks: Keyspace, frozen: bool)
    ensures NamesLike(Parse(text, ks, frozen))
    decreases |text|
  {
    var start := SkipBlank(text, 0);
    var end := NameEnd(text, start);
    var params := TypeParams(text, end);
    match Classify(text[start..end])
    case KindHead(k) =>
      forall i | 0 <= i < |params|
        ensures NamesLike(Parse(params[i], ks, false))
      {
        ParsedNames(params[i], ks, false);
      }
    case FrozenHead =>
      if |params| == 1 {
        ParsedNames(params[0], ks, true);
      }
    case UserHead => UserNameLike(text, start, end);
    case _ =>
  }

  /** A type with a user type whose name is no name, at any depth, is never read back. */
  lemma OddNameIsLost(t: DataType, ks: Keyspace)
    requires !NamesLike(t)
    ensures Parse(Print(t), ks, false) != t
  {
    ParsedNames(Print(t), ks, false);
  }
}

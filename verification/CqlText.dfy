/**
 * What the CQL type-name parser reads (`data_type_parser.cpp:160-260`), as
 * functions of a text and a position.
 */
module CqlText {
  import opened Options
  import opened ParserBase

  /** The end of a double-quoted name; `i` is past its opening quote. */
  function QuotedEnd(s: string, i: nat): (r: nat)
    requires i <= |s|
    ensures i <= r <= |s|
    decreases |s| - i
  {
    if i == |s| then i
    else if s[i] != '"' then QuotedEnd(s, i + 1)
    else if i + 1 < |s| && s[i + 1] == '"' then QuotedEnd(s, i + 2)
    else i + 1
  }

  /** The end of a single-quoted name; `i` is past its opening quote. */
  function SingleQuotedEnd(s: string, i: nat): (r: nat)
    requires i <= |s|
    ensures i <= r <= |s|
    decreases |s| - i
  {
    if i == |s| then i
    else if s[i] == '\'' then i + 1
    else SingleQuotedEnd(s, i + 1)
  }

  function BareEnd(s: string, i: nat): (r: nat)
    requires i <= |s|
    ensures i <= r <= |s|
    decreases |s| - i
  {
    if i < |s| && (IsIdentifierChar(s[i]) || s[i] == '"') then BareEnd(s, i + 1) else i
  }

  function NameEnd(s: string, i: nat): (r: nat)
    requires i <= |s|
    ensures i <= r <= |s|
    ensures i < |s| && (s[i] == '"' || s[i] == '\'' || IsIdentifierChar(s[i])) ==> i < r
  {
    if At(s, i) == '"' then QuotedEnd(s, i + 1)
    else if At(s, i) == '\'' then SingleQuotedEnd(s, i + 1)
    else BareEnd(s, i)
  }

  /** The brackets open at a point of the text and whether that point is in quotes. */
  datatype Brackets = Brackets(open: int, quoted: bool) {
    function Over(c: char): Brackets {
      if c == '"' then Brackets(open, !quoted)
      else if quoted then this
      else if c == '<' then Brackets(open + 1, quoted)
      else if c == '>' then Brackets(open - 1, quoted)
      else this
    }
  }

  /** The end of the bracketed text, `i` being the next character to look at. */
  function Close(s: string, i: nat, b: Brackets): (r: Option<nat>)
    requires i <= |s|
    ensures r.Some? ==> i < r.value <= |s|
    decreases |s| - i
  {
    if i == |s| then None
    else
      var after := b.Over(s[i]);
      if after.open <= 0 then Some(i + 1) else Close(s, i + 1, after)
  }

  /** The end of the raw parameters that start at `i`, which is past any blanks. */
  function RawEnd(s: string, i: nat): (r: Option<nat>)
    requires i <= |s|
    ensures r.Some? ==> i <= r.value <= |s|
    ensures r.Some? && i < |s| && s[i] != '>' && s[i] != ',' ==> i < r.value
  {
    if i == |s| || s[i] == '>' || s[i] == ',' then Some(i)
    else if s[i] != '<' then None
    else Close(s, i + 1, Brackets(1, false))
  }

  /** One parameter from `i`: its text without the blanks around its name, and its end. */
  datatype Param = Param(text: string, next: nat)

  function ReadParam(s: string, i: nat): (r: Option<Param>)
    requires i <= |s|
    ensures r.Some? ==> i <= r.value.next <= |s| && |r.value.text| <= r.value.next - i
    ensures r.Some? && i < |s| && !IsBlank(s[i]) && s[i] != '>' && s[i] != ',' ==> i < r.value.next
  {
    var start := SkipBlank(s, i);
    var end := NameEnd(s, start);
    var raw := SkipBlank(s, end);
    match RawEnd(s, raw)
    case None => None
    case Some(next) => Some(Param(s[start..end] + s[raw..next], next))
  }

  /**
   * The parameters read from `i`, which is inside the brackets. Every round moves
   * forward, whatever the text, so the loop of the original ends.
   */
  function Params(s: string, i: nat): (r: seq<string>)
    requires i <= |s|
    ensures forall k :: 0 <= k < |r| ==> |r[k]| <= |s| - i
    decreases |s| - i
  {
    var skipped := SkipBlankAndComma(s, i, false);
    if !skipped.more || s[skipped.next] == '>' then []
    else
      match ReadParam(s, skipped.next)
      case None => []
      case Some(p) => [p.text] + Params(s, p.next)
  }

  /** The parameters of a type whose name ends at `i`. */
  function TypeParams(s: string, i: nat): (r: seq<string>)
    requires i <= |s|
    ensures forall k :: 0 <= k < |r| ==> |r[k]| < |s|
  {
    var j := SkipBlankAndComma(s, i, false).next;
    if i == |s| || At(s, j) != '<' then [] else Params(s, j + 1)
  }
}

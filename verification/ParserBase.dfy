/**
 * The cursor that both type-name parsers work with (`ParserBase`,
 * `data_type_parser.hpp:33-82`): a text and a position in it, with what skipping
 * does as functions of the text and the position. The position may lie past the
 * end of the text. Reading just past the end gives the terminating zero, as on
 * the original's constant string.
 */
module ParserBase {
  predicate IsBlank(c: char) {
    c == ' ' || c == '\t' || c == '\n'
  }

  predicate IsIdentifierChar(c: char) {
    || '0' <= c <= '9' || 'a' <= c <= 'z' || 'A' <= c <= 'Z'
    || c == '-' || c == '+' || c == '.' || c == '_' || c == '&'
  }

  lemma SmallLetters(c: char)
    ensures c in "abcdefghijklmnopqrstuvwxyz" <==> 'a' <= c <= 'z'
  {
    if 'a' <= c <= 'z' {
      assert c == "abcdefghijklmnopqrstuvwxyz"[c as int - 'a' as int];
    }
  }

  lemma CapitalLetters(c: char)
    ensures c in "ABCDEFGHIJKLMNOPQRSTUVWXYZ" <==> 'A' <= c <= 'Z'
  {
    if 'A' <= c <= 'Z' {
      assert c == "ABCDEFGHIJKLMNOPQRSTUVWXYZ"[c as int - 'A' as int];
    }
  }

  lemma DecimalDigits(c: char)
    ensures c in "0123456789" <==> '0' <= c <= '9'
  {
    if '0' <= c <= '9' {
      assert c == "0123456789"[c as int - '0' as int];
    }
  }

  /** The characters of names. */
  lemma IdentifierAlphabet(c: char)
    ensures IsIdentifierChar(c)
            <==> || c in "abcdefghijklmnopqrstuvwxyz"
                 || c in "ABCDEFGHIJKLMNOPQRSTUVWXYZ"
                 || c in "0123456789"
                 || c in "-+._&"
  {
    SmallLetters(c);
    CapitalLetters(c);
    DecimalDigits(c);
    assert c in "-+._&" <==> c == '-' || c == '+' || c == '.' || c == '_' || c == '&';
  }

  function At(s: string, i: nat): char {
    if i < |s| then s[i] else '\0'
  }

  function SkipBlank(s: string, i: nat): (r: nat)
    ensures i <= r && (i <= |s| ==> r <= |s|)
    ensures r < |s| ==> !IsBlank(s[r])
    decreases |s| - i
  {
    if i < |s| && IsBlank(s[i]) then SkipBlank(s, i + 1) else i
  }

  datatype Skipped = Skipped(more: bool, next: nat)

  /** Blanks and at most one comma; a second comma stops the skipping. */
  function SkipBlankAndComma(s: string, i: nat, comma: bool): (r: Skipped)
    ensures i <= r.next && (i <= |s| ==> r.next <= |s|)
    ensures r.more <==> r.next < |s|
    ensures r.more ==> !IsBlank(s[r.next])
    ensures r.more && s[r.next] == ',' ==> comma || i < r.next
    decreases |s| - i
  {
    if i >= |s| then Skipped(false, i)
    else if s[i] == ',' then if comma then Skipped(true, i) else SkipBlankAndComma(s, i + 1, true)
    else if IsBlank(s[i]) then SkipBlankAndComma(s, i + 1, comma)
    else Skipped(true, i)
  }

  class Cursor {
    const text: string
    var index: nat

    constructor (text: string)
      ensures this.text == text && index == 0
    {
      this.text := text;
      index := 0;
    }

    method Skip()
      modifies this
      ensures index == old(index) + 1
    {
      index := index + 1;
    }

    method SkipBlanks()
      modifies this
      ensures index == SkipBlank(text, old(index))
    {
      while index < |text| && IsBlank(text[index])
        invariant SkipBlank(text, index) == SkipBlank(text, old(index))
      {
        index := index + 1;
      }
    }

    method SkipBlanksAndComma() returns (more: bool)
      modifies this
      ensures Skipped(more, index) == SkipBlankAndComma(text, old(index), false)
    {
      var comma := false;
      while index < |text|
        invariant SkipBlankAndComma(text, index, comma) == SkipBlankAndComma(text, old(index), false)
      {
        if text[index] == ',' {
          if comma {
            return true;
          }
          comma := true;
        } else if !IsBlank(text[index]) {
          return true;
        }
        index := index + 1;
      }
      more := false;
    }
  }
}

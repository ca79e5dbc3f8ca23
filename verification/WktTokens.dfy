/**
 * What the WKT scanner promises (src/wkt.rl): blanks are skipped, then the longest keyword,
 * punctuation mark or number is taken, and anything else is an invalid token of one character.
 * Blanks at the very end of the text give one invalid token before the end-of-text token.
 */
module WktTokens {
  import opened NumberLexeme
  import WktAutomaton

  type Token = WktAutomaton.Token

  predicate IsBlank(c: char) { c == ' ' || c == '\t' }

  function SkipBlanks(text: string, p: nat): (q: nat)
    requires p <= |text|
    ensures p <= q <= |text|
    decreases |text| - p
  {
    if p < |text| && IsBlank(text[p]) then SkipBlanks(text, p + 1) else p
  }

  predicate HasWord(text: string, q: nat, word: string) {
    q + |word| <= |text| && text[q..q + |word|] == word
  }

  /** The length of the longest number that starts at q, or 0, looking at lengths up to m. */
  ghost function LongestUpTo(text: string, q: nat, m: nat): (n: nat)
    requires q + m <= |text|
    ensures n <= m
  {
    if m == 0 then 0 else if IsNumber(text[q..q + m]) then m else LongestUpTo(text, q, m - 1)
  }

  ghost function LongestNumber(text: string, q: nat): nat
    requires q <= |text|
  {
    LongestUpTo(text, q, |text| - q)
  }

  /** The token at a character that is not blank, and its length. */
  ghost function TokenAt(text: string, q: nat): (r: (Token, nat))
    requires q < |text|
    ensures 1 <= r.1 <= |text| - q
  {
    if HasWord(text, q, "POINT") then (WktAutomaton.TypePoint, 5)
    else if HasWord(text, q, "LINESTRING") then (WktAutomaton.TypeLineString, 10)
    else if HasWord(text, q, "POLYGON") then (WktAutomaton.TypePolygon, 7)
    else if HasWord(text, q, "EMPTY") then (WktAutomaton.Empty, 5)
    else if text[q] == '(' then (WktAutomaton.OpenParen, 1)
    else if text[q] == ')' then (WktAutomaton.CloseParen, 1)
    else if text[q] == ',' then (WktAutomaton.Comma, 1)
    else if LongestNumber(text, q) > 0 then (WktAutomaton.Number, LongestNumber(text, q))
    else (WktAutomaton.Invalid, 1)
  }

  /** The next token and the position after it. */
  ghost function NextToken(text: string, p: nat): (r: (Token, nat))
    requires p <= |text|
    ensures p <= r.1 <= |text|
    ensures p < |text| ==> p < r.1
    ensures r.0 == WktAutomaton.Eof <==> p == |text|
  {
    if p == |text| then (WktAutomaton.Eof, p)
    else
      var q := SkipBlanks(text, p);
      if q == |text| then (WktAutomaton.Invalid, q)
      else (TokenAt(text, q).0, q + TokenAt(text, q).1)
  }

  // ---------- the longest number, in terms of the recogniser ----------

  predicate Accepts(text: string, q: nat, m: nat)
    requires q + m <= |text|
  {
    Accepting(Run(Start, text[q..q + m]))
  }

  lemma {:induction false} LongestUpToIs(text: string, q: nat, m: nat, n: nat)
    requires q + m <= |text| && n <= m
    requires n == 0 || Accepts(text, q, n)
    requires forall k :: n < k <= m ==> !Accepts(text, q, k)
    ensures LongestUpTo(text, q, m) == n
  {
    RecogniserIsExact(text[q..q + m]);
    if m > n {
      assert !Accepts(text, q, m);
      LongestUpToIs(text, q, m - 1, n);
    }
  }

  /** Once the recogniser is dead no longer prefix is accepted. */
  lemma DeadPrefix(text: string, q: nat, n: nat, k: nat)
    requires n <= k && q + k <= |text|
    requires Run(Start, text[q..q + n]) == Dead
    ensures !Accepts(text, q, k)
  {
    assert text[q..q + k] == text[q..q + n] + text[q + n..q + k];
    RunConcat(Start, text[q..q + n], text[q + n..q + k]);
    DeadForever(text[q + n..q + k]);
  }

  /**
   * The recogniser has read text[q..p] and stops there: at the end of the text, or because the
   * next character kills it. Then the longest number is the longest accepted part of it.
   */
  lemma LongestWithin(text: string, q: nat, p: nat, n: nat)
    requires q < p <= |text| && n <= p - q
    requires p < |text| ==> Delta(Run(Start, text[q..p]), text[p]) == Dead
    requires n == 0 || Accepts(text, q, n)
    requires forall k :: n < k <= p - q ==> !Accepts(text, q, k)
    ensures LongestNumber(text, q) == n
  {
    forall k | n < k <= |text| - q
      ensures !Accepts(text, q, k)
    {
      if k > p - q {
        assert text[q..p + 1] == text[q..p] + [text[p]];
        RunAppend(Start, text[q..p], text[p]);
        DeadPrefix(text, q, p + 1 - q, k);
      }
    }
    LongestUpToIs(text, q, |text| - q, n);
  }

  /** A character that no number starts with. */
  lemma NoNumberAt(text: string, q: nat)
    requires q < |text| && Delta(Start, text[q]) == Dead
    ensures LongestNumber(text, q) == 0
  {
    forall k | 0 < k <= |text| - q
      ensures !Accepts(text, q, k)
    {
      assert text[q..q + 1] == "" + [text[q]];
      RunAppend(Start, "", text[q]);
      DeadPrefix(text, q, 1, k);
    }
    LongestUpToIs(text, q, |text| - q, 0);
  }
}

/** WktLexer::next_token, the table-driven scanner of src/wkt.cpp, against the tokens it promises. */
module WktLexers {
  import opened Options
  import NumberLexeme
  import opened NL = NumberLexeme
  import opened WktTables
  import opened WktAutomaton
  import opened WktTokens

  // ---------- what the scanner knows in the middle of a token ----------

  function StateOf(cs: int): NumberLexeme.State {
    match cs
    case 22 => Signed
    case 25 => Whole
    case 0 => Point
    case 26 => Point
    case 23 => Fraction
    case 1 => NumberLexeme.Mark
    case 2 => MarkSign
    case 24 => Power
    case _ => Dead
  }

  /** The part of a keyword that leads to a keyword state. */
  function Prefix(cs: int): string {
    match cs
    case 27 => "E" case 3 => "EM" case 4 => "EMP" case 5 => "EMPT"
    case 28 => "L" case 6 => "LI" case 7 => "LIN" case 8 => "LINE" case 9 => "LINES" case 10 => "LINEST"
    case 11 => "LINESTR" case 12 => "LINESTRI" case 13 => "LINESTRIN"
    case 29 => "P" case 14 => "PO" case 15 => "POI" case 16 => "POIN"
    case 17 => "POL" case 18 => "POLY" case 19 => "POLYG" case 20 => "POLYGO"
    case _ => ""
  }

  /**
   * Between q, where the token starts, and p: the recogniser's state and the longest number so far,
   * of n characters, as the registers te and act remember it.
   */
  ghost predicate NumberStage(cs: int, text: string, q: nat, p: nat, te: int, act: int, n: nat)
    requires q < p <= |text|
  {
    && Run(Start, text[q..p]) == StateOf(cs)
    && n <= p - q && (n == 0 || Accepts(text, q, n))
    && (forall k :: n < k <= p - q ==> !Accepts(text, q, k))
    && Delta(Start, text[q]) != Dead
    && match cs
       case 22 => n == 0 && te == q + 1 && act == 10 && p == q + 1
       case 25 => q + n == p && te == p && act == 8
       case 0 => if n > 0 then te == q + n && act == 8 else te == q + 1 && act == 10
       case 26 => n == 0 && p == q + 1
       case 23 => q + n == p && te == p
       case 1 => n > 0 && te == q + n
       case 2 => n > 0 && te == q + n
       case _ => q + n == p
  }

  ghost predicate Stage(cs: int, text: string, q: nat, p: nat, te: int, act: int)
    requires q < p <= |text|
  {
    if IsNumberState(cs) then exists n: nat :: NumberStage(cs, text, q, p, te, act, n)
    else text[q..p] == Prefix(cs) && te == q + 1
  }

  // ---------- number states ----------

  /** Reading one more character, which the recogniser does not die of. */
  lemma NumberAdvances(cs: int, text: string, q: nat, p: nat, te: int, act: int, n: nat, g: Regs)
    requires IsState(cs) && IsNumberState(cs) && q < p < |text| && NumberStage(cs, text, q, p, te, act, n)
    requires g.p == p && g.te == te && g.act == act && !g.out
    ensures var row := Row(cs, text[p] as int);
            var h := Perform(row.1, g);
            if Delta(StateOf(cs), text[p]) == Dead then row.0 == WKT_START
            else
              && row.0 != WKT_START && IsNumberState(row.0) && IsState(row.0) && !h.out && h.p == p
              && StateOf(row.0) == Delta(StateOf(cs), text[p])
              && NumberStage(row.0, text, q, p + 1, h.te, h.act, if Accepts(text, q, p + 1 - q) then p + 1 - q else n)
  {
    assert text[q..p + 1] == text[q..p] + [text[p]];
    RunAppend(Start, text[q..p], text[p]);
  }

  /** The recogniser stops: what the final effect makes of the registers is the longest number. */
  lemma NumberFinishes(cs: int, text: string, q: nat, p: nat, te: int, act: int, n: nat, e: Effect, g: Regs)
    requires IsState(cs) && IsNumberState(cs) && q < p <= |text| && NumberStage(cs, text, q, p, te, act, n)
    requires p < |text| ==> Delta(StateOf(cs), text[p]) == Dead && e == Row(cs, text[p] as int).1
    requires p == |text| ==> e == EofRow(cs)
    requires g.p == p && g.te == te && g.act == act && g.ts == q && !g.out
    ensures var h := Perform(e, g);
            && h.out && h.p == q + TokenAt(text, q).1 && h.token == TokenAt(text, q).0
            && (h.token == Token.Number ==> h.number == Some((q, h.p)))
  {
    LongestWithin(text, q, p, n);
    NotAWord(text, q);
  }

  lemma NotAWord(text: string, q: nat)
    requires q < |text| && Delta(Start, text[q]) != Dead
    ensures !HasWord(text, q, "POINT") && !HasWord(text, q, "LINESTRING")
    ensures !HasWord(text, q, "POLYGON") && !HasWord(text, q, "EMPTY")
    ensures text[q] != '(' && text[q] != ')' && text[q] != ','
  {
    if q + 5 <= |text| {
      assert text[q..q + 5][0] == text[q];
    }
    if q + 7 <= |text| {
      assert text[q..q + 7][0] == text[q];
    }
    if q + 10 <= |text| {
      assert text[q..q + 10][0] == text[q];
    }
  }

  // ---------- keyword states ----------

  predicate IsKeywordState(cs: int) { IsState(cs) && cs != WKT_START && !IsNumberState(cs) }

  lemma KeywordAdvances(cs: int, text: string, q: nat, p: nat)
    requires IsKeywordState(cs) && q < p < |text| && text[q..p] == Prefix(cs)
    requires KeywordRow(cs, text[p] as int).0 != WKT_START
    ensures var row := KeywordRow(cs, text[p] as int);
            IsKeywordState(row.0) && row.1 == Go && text[q..p + 1] == Prefix(row.0)
  {
    assert text[q..p + 1] == text[q..p] + [text[p]];
  }

  lemma WordChar(text: string, q: nat, word: string, i: nat)
    requires HasWord(text, q, word) && i < |word|
    ensures text[q + i] == word[i]
  {
    assert text[q..q + |word|][i] == text[q + i];
  }

  predicate HasNoWord(text: string, q: nat) {
    && !HasWord(text, q, "POINT") && !HasWord(text, q, "LINESTRING")
    && !HasWord(text, q, "POLYGON") && !HasWord(text, q, "EMPTY")
  }

  /** The text between q and p leads to cs, and what follows, if anything, does not continue it. */
  predicate Stuck(cs: int, text: string, q: nat, p: nat)
    requires q < p <= |text|
  {
    && IsKeywordState(cs) && text[q..p] == Prefix(cs)
    && (p < |text| ==> var row := KeywordRow(cs, text[p] as int); row.0 == WKT_START && !row.1.Emit?)
  }

  lemma NotThisWord(text: string, q: nat, word: string, i: nat)
    requires q + i < |text| && i < |word| && text[q + i] != word[i]
    ensures !HasWord(text, q, word)
  {
    if HasWord(text, q, word) {
      WordChar(text, q, word, i);
    }
  }

  /** A word differs from the text in its first or third character, or in that at p. */
  lemma StuckIsNot(cs: int, text: string, q: nat, p: nat, word: string)
    requires q < p <= |text| && Stuck(cs, text, q, p)
    requires word == "POINT" || word == "LINESTRING" || word == "POLYGON" || word == "EMPTY"
    ensures !HasWord(text, q, word)
  {
    assert text[q..p][0] == text[q];
    if text[q] != word[0] {
      NotThisWord(text, q, word, 0);
    } else if p > q + 2 && text[q..p][2] != word[2] {
      assert text[q..p][2] == text[q + 2];
      NotThisWord(text, q, word, 2);
    } else if p < |text| && text[p] != word[p - q] {
      NotThisWord(text, q, word, p - q);
    }
  }

  lemma KeywordFails(cs: int, text: string, q: nat, p: nat)
    requires q < p <= |text| && Stuck(cs, text, q, p)
    ensures HasNoWord(text, q)
  {
    StuckIsNot(cs, text, q, p, "POINT");
    StuckIsNot(cs, text, q, p, "LINESTRING");
    StuckIsNot(cs, text, q, p, "POLYGON");
    StuckIsNot(cs, text, q, p, "EMPTY");
  }

  lemma KeywordFirst(cs: int, text: string, q: nat, p: nat)
    requires IsKeywordState(cs) && q < p <= |text| && text[q..p] == Prefix(cs)
    ensures text[q] == 'E' || text[q] == 'L' || text[q] == 'P'
  {
    assert text[q..p][0] == text[q];
  }

  /** The last letter of a keyword. */
  lemma KeywordEnds(cs: int, text: string, q: nat, p: nat)
    requires IsKeywordState(cs) && q < p < |text| && text[q..p] == Prefix(cs)
    requires KeywordRow(cs, text[p] as int).1.Emit?
    ensures TokenAt(text, q) == (KeywordRow(cs, text[p] as int).1.token, p + 1 - q)
  {
    assert text[q..p + 1] == text[q..p] + [text[p]];
    assert text[q..p][0] == text[q];
    if cs != 16 {
      if cs == 20 {
        assert text[q..p][2] == text[q + 2];
        NotThisWord(text, q, "POINT", 2);
        NotThisWord(text, q, "LINESTRING", 0);
      } else {
        NotThisWord(text, q, "POINT", 0);
        NotThisWord(text, q, "POLYGON", 0);
        if cs == 5 {
          NotThisWord(text, q, "LINESTRING", 0);
        }
      }
    }
  }

  lemma KeywordFinishes(cs: int, text: string, q: nat, p: nat, e: Effect, g: Regs)
    requires IsKeywordState(cs) && q < p <= |text| && text[q..p] == Prefix(cs)
    requires p < |text| ==> KeywordRow(cs, text[p] as int) == (WKT_START, e)
    requires p == |text| ==> e == EofRow(cs)
    requires g.p == p && g.te == q + 1 && !g.out
    ensures var h := Perform(e, g);
            h.out && h.p == q + TokenAt(text, q).1 && h.token == TokenAt(text, q).0 && h.token != Token.Number
  {
    if e.Emit? {
      KeywordEnds(cs, text, q, p);
    } else {
      KeywordFirst(cs, text, q, p);
      KeywordFails(cs, text, q, p);
      NoNumberAt(text, q);
      KeywordEffect(cs, text, q, p, e);
    }
  }

  /** A keyword state is left backwards, or where it is one character long. */
  lemma KeywordEffect(cs: int, text: string, q: nat, p: nat, e: Effect)
    requires q < p <= |text| && Stuck(cs, text, q, p)
    requires e == if p < |text| then KeywordRow(cs, text[p] as int).1 else EofRow(cs)
    ensures e == InvalidBack || (e == InvalidHere && p == q + 1)
  {
  }

  // ---------- the main loop ----------

  /** Between two rounds: only blanks so far, or in the middle of the token after them. */
  ghost predicate Scanning(text: string, pos: nat, cs: int, g: Regs) {
    && pos <= g.p <= |text| && IsState(cs)
    && !g.out && g.token == Token.Invalid && g.number.None?
    && var q := SkipBlanks(text, pos);
       if cs == WKT_START then q == SkipBlanks(text, g.p)
       else q < g.p && g.ts == q && Stage(cs, text, q, g.p, g.te, g.act)
  }

  /** The registers hold the next token. */
  ghost predicate Done(text: string, pos: nat, g: Regs)
    requires pos <= |text|
  {
    && g.out && g.token == NextToken(text, pos).0 && g.p == NextToken(text, pos).1
    && g.number == if g.token == Token.Number then Some((SkipBlanks(text, pos) as int, g.p)) else None
  }

  function AfterRound(cs: int, g: Regs): Regs {
    g.(p := g.p + 1, ts := if cs == WKT_START then 0 else g.ts)
  }

  lemma FirstNumberStage(text: string, q: nat, te: int, act: int, cs: int)
    requires q < |text| && IsNumberState(cs) && StateOf(cs) == Delta(Start, text[q]) != Dead
    requires if cs == 22 then te == q + 1 && act == 10 else if cs == 25 then te == q + 1 && act == 8 else cs == 26
    ensures NumberStage(cs, text, q, q + 1, te, act, if cs == 25 then 1 else 0)
  {
    assert text[q..q + 1] == "" + [text[q]];
    RunAppend(Start, "", text[q]);
    assert text[q..q + 0] == "";
  }

  lemma PunctuationAt(text: string, q: nat)
    requires q < |text| && StartRow(text[q] as int).1.Emit?
    ensures TokenAt(text, q) == (StartRow(text[q] as int).1.token, 1)
    ensures StartRow(text[q] as int).1.token != Token.Number
  {
    NotThisWord(text, q, "POINT", 0);
    NotThisWord(text, q, "LINESTRING", 0);
    NotThisWord(text, q, "POLYGON", 0);
    NotThisWord(text, q, "EMPTY", 0);
    NoNumberAt(text, q);
  }

  lemma StartRound(text: string, pos: nat, g: Regs)
    requires Scanning(text, pos, WKT_START, g) && g.p < |text|
    ensures var row := StartRow(text[g.p] as int);
            var h := Perform(row.1, g.(ts := g.p));
            if h.out then Done(text, pos, h)
            else IsState(row.0) && Scanning(text, pos, row.0, AfterRound(row.0, h))
  {
    var q := g.p as nat;
    var row := StartRow(text[q] as int);
    var h := Perform(row.1, g.(ts := g.p));
    if row.1.Emit? {
      PunctuationAt(text, q);
    } else if row.0 != WKT_START {
      if IsNumberState(row.0) {
        FirstNumberStage(text, q, h.te, h.act, row.0);
      } else {
        assert text[q..q + 1] == [text[q]];
      }
    }
  }

  lemma NumberRound(text: string, pos: nat, cs: int, g: Regs)
    requires IsNumberState(cs) && Scanning(text, pos, cs, g) && g.p < |text|
    ensures var row := Row(cs, text[g.p] as int);
            var h := Perform(row.1, g);
            if h.out then Done(text, pos, h)
            else IsState(row.0) && Scanning(text, pos, row.0, AfterRound(row.0, h))
  {
    var q := SkipBlanks(text, pos);
    var row := Row(cs, text[g.p] as int);
    var n: nat :| NumberStage(cs, text, q, g.p, g.te, g.act, n);
    NumberAdvances(cs, text, q, g.p, g.te, g.act, n, g);
    if Delta(StateOf(cs), text[g.p]) == Dead {
      NumberFinishes(cs, text, q, g.p, g.te, g.act, n, row.1, g);
    }
  }

  lemma KeywordRound(text: string, pos: nat, cs: int, g: Regs)
    requires IsKeywordState(cs) && Scanning(text, pos, cs, g) && g.p < |text|
    ensures var row := KeywordRow(cs, text[g.p] as int);
            var h := Perform(row.1, g);
            if h.out then Done(text, pos, h)
            else IsState(row.0) && Scanning(text, pos, row.0, AfterRound(row.0, h))
  {
    var q := SkipBlanks(text, pos);
    var row := KeywordRow(cs, text[g.p] as int);
    if row.0 == WKT_START {
      KeywordFinishes(cs, text, q, g.p, row.1, g);
    } else {
      KeywordAdvances(cs, text, q, g.p);
    }
  }

  /** One round of the main loop, on the automaton. */
  lemma AnyRound(text: string, pos: nat, cs: int, g: Regs)
    requires Scanning(text, pos, cs, g) && g.p < |text|
    ensures var row := Row(cs, text[g.p] as int);
            var h := Perform(row.1, if cs == WKT_START then g.(ts := g.p) else g);
            if h.out then Done(text, pos, h)
            else IsState(row.0) && Scanning(text, pos, row.0, AfterRound(row.0, h))
  {
    if cs == WKT_START {
      StartRound(text, pos, g);
    } else if IsNumberState(cs) {
      NumberRound(text, pos, cs, g);
    } else {
      KeywordRound(text, pos, cs, g);
    }
  }

  lemma BlankToTheEnd(text: string, pos: nat, g: Regs)
    requires Scanning(text, pos, WKT_START, g) && pos < |text| && g.p == |text|
    ensures NextToken(text, pos) == (g.token, |text|) && g.token != Token.Number
  {
  }

  lemma EofRound(text: string, pos: nat, cs: int, g: Regs)
    requires cs != WKT_START && Scanning(text, pos, cs, g) && g.p == |text|
    ensures Done(text, pos, Perform(EofRow(cs), g))
  {
    var q := SkipBlanks(text, pos);
    if IsNumberState(cs) {
      var n: nat :| NumberStage(cs, text, q, g.p, g.te, g.act, n);
      NumberFinishes(cs, text, q, g.p, g.te, g.act, n, EofRow(cs), g);
    } else {
      KeywordFinishes(cs, text, q, g.p, EofRow(cs), g);
    }
  }

  /** The effects of the table rows never emit the tokens that have actions of their own. */
  lemma RowsEmit(cs: int, c: int)
    requires IsState(cs)
    ensures Emits(Row(cs, c).1) && Emits(EofRow(cs))
  {
  }

  /** The actions on entering and leaving a state only concern the token start. */
  lemma StateActions(cs: int, g: Regs)
    requires IsState(cs) && !g.out
    ensures Actions(FromStateActions(cs)) >= 0 && Actions(ToStateActions(cs)) >= 0
    ensures ExecuteAll(FromStateActions(cs) + 1, Actions(FromStateActions(cs)), g)
            == if cs == WKT_START then g.(ts := g.p) else g
    ensures ExecuteAll(ToStateActions(cs) + 1, Actions(ToStateActions(cs)), g)
            == if cs == WKT_START then g.(ts := 0) else g
  {
    if cs == WKT_START {
      assert ExecuteAll(4, 1, g) == ExecuteAll(5, 0, Execute(Actions(4), g));
      assert ExecuteAll(2, 1, g) == ExecuteAll(3, 0, Execute(Actions(2), g));
    }
  }

  class WktLexer {
    const text: string
    const skipNumber: bool
    var position: nat
    /** The characters given to atof for the last number. */
    var lexeme: string

    ghost predicate Valid()
      reads this
    {
      position <= |text|
    }

    constructor (text: string, skipNumber: bool)
      ensures Valid() && this.text == text && this.skipNumber == skipNumber && position == 0
    {
      this.text, this.skipNumber := text, skipNumber;
      position, lexeme := 0, "";
    }

    /** A second lexer that reads on from the position of another one. */
    constructor ReadAhead(other: WktLexer, skipNumber: bool)
      requires other.Valid()
      ensures Valid() && text == other.text && this.skipNumber == skipNumber && position == other.position
    {
      text, this.skipNumber := other.text, skipNumber;
      position, lexeme := other.position, "";
    }

    method NextToken() returns (token: Token)
      requires Valid()
      modifies this
      ensures Valid()
      ensures (token, position) == WktTokens.NextToken(text, old(position))
      ensures lexeme == if token == Token.Number && !skipNumber
                        then text[SkipBlanks(text, old(position))..position] else old(lexeme)
    {
      if position == |text| {
        return Token.Eof;
      }
      var g := Scan(text, position);
      if g.number.Some? && !skipNumber {
        lexeme := text[g.number.value.0..g.number.value.1];
      }
      position := g.p;
      token := g.token;
    }
  }

  /** The scanner loop, from the first character to _out. */
  method Scan(text: string, pos: nat) returns (g: Regs)
    requires pos < |text|
    ensures Done(text, pos, g.(out := true))
  {
    var cs := WKT_START;
    g := Regs(pos, 0, 0, 0, Token.Invalid, None, false);
    while g.p != |text| && !g.out
      invariant if g.out then Done(text, pos, g) else Scanning(text, pos, cs, g)
      decreases !g.out, |text| - g.p
    {
      cs, g := Round(text, pos, cs, g);
    }
    if !g.out {
      g := AtEof(text, pos, cs, g);
    }
  }

  /** From _resume to _again. */
  method Resume(text: string, ghost pos: nat, cs: int, g: Regs) returns (cs': int, g': Regs)
    requires Scanning(text, pos, cs, g) && g.p < |text|
    ensures if g'.out then Done(text, pos, g') else Scanning(text, pos, cs', AfterRound(cs', g')) && g'.p == g.p
  {
    StateActions(cs, g);
    g' := RunActions(FromStateActions(cs), g);
    ghost var h := g';
    cs', g' := TakeTransition(cs, text[g.p] as int, g');
    Resumed(text, pos, cs, g, h, cs', g');
  }

  lemma Resumed(text: string, pos: nat, cs: int, g: Regs, h: Regs, cs': int, g': Regs)
    requires Scanning(text, pos, cs, g) && g.p < |text| && h == if cs == WKT_START then g.(ts := g.p) else g
    requires cs' == Row(cs, text[g.p] as int).0 && g' == Perform(Row(cs, text[g.p] as int).1, h)
    ensures if g'.out then Done(text, pos, g') else Scanning(text, pos, cs', AfterRound(cs', g')) && g'.p == g.p
  {
    AnyRound(text, pos, cs, g);
    StaysPut(Row(cs, text[g.p] as int).1, h);
  }

  lemma StaysPut(e: Effect, g: Regs)
    ensures !Perform(e, g).out ==> Perform(e, g).p == g.p
  {
  }

  /** From _resume to the next character. */
  method Round(text: string, ghost pos: nat, cs: int, g: Regs) returns (cs': int, g': Regs)
    requires Scanning(text, pos, cs, g) && g.p < |text|
    ensures if g'.out then Done(text, pos, g') else Scanning(text, pos, cs', g') && g'.p == g.p + 1
  {
    cs', g' := Resume(text, pos, cs, g);
    if !g'.out {
      StateActions(cs', g');
      g' := RunActions(ToStateActions(cs'), g');
      g' := g'.(p := g'.p + 1);
    }
  }

  /** The lookup and the actions of one transition. */
  method TakeTransition(cs: int, c: int, g: Regs) returns (cs': int, g': Regs)
    requires IsState(cs) && !g.out
    ensures cs' == Row(cs, c).0 && g' == Perform(Row(cs, c).1, g)
  {
    var trans := FindTransition(cs, c);
    RowEncoded(cs, c, trans);
    RowsEmit(cs, c);
    EffectEncoded(Row(cs, c).1, g);
    cs' := TransTargs(trans);
    g' := RunActions(TransActions(trans), g);
  }

  /** From _test_eof on. */
  method AtEof(text: string, ghost pos: nat, cs: int, g: Regs) returns (g': Regs)
    requires pos < |text| && Scanning(text, pos, cs, g) && g.p == |text|
    ensures Done(text, pos, g'.(out := true))
  {
    EofEncoded(cs);
    if EofTrans(cs) > 0 {
      EofRound(text, pos, cs, g);
      RowsEmit(cs, 0);
      EffectEncoded(EofRow(cs), g);
      g' := RunActions(TransActions(EofTrans(cs) - 1), g);
      assert g'.out;
    } else {
      BlankToTheEnd(text, pos, g);
      g' := g;
    }
  }
}

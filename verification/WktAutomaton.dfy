/** The scanner's automaton and its actions, as the tables of src/wkt.cpp encode them. */
module WktAutomaton {
  import opened Options
  import opened WktTables

  /** The tokens of src/wkt.hpp:14-24. */
  datatype Token =
    | Invalid
    | Eof
    | TypePoint
    | TypeLineString
    | TypePolygon
    | Number
    | Comma
    | Empty
    | OpenParen
    | CloseParen

  /** What a transition does besides changing the state. */
  datatype Effect =
    | Go
    | Mark
    | MarkNumber
    | MarkInvalid
    | Skip
    | Emit(token: Token)
    | NumberHere
    | InvalidHere
    | NumberBack
    | InvalidBack
    | Back

  /** The entry of the action table that encodes an effect. */
  function ActionOf(e: Effect): int {
    match e
    case Go => 0
    case Mark => 5
    case MarkNumber => 35
    case MarkInvalid => 38
    case Skip => 21
    case Emit(TypePoint) => 7
    case Emit(TypeLineString) => 9
    case Emit(TypePolygon) => 11
    case Emit(Empty) => 13
    case Emit(OpenParen) => 15
    case Emit(CloseParen) => 17
    case Emit(Comma) => 19
    case Emit(_) => 23
    case NumberHere => 25
    case InvalidHere => 27
    case NumberBack => 29
    case InvalidBack => 31
    case Back => 33
  }

  predicate Digit(c: int) { 48 <= c <= 57 }

  predicate Sign(c: int) { c == 43 || c == 45 }

  predicate PowerMark(c: int) { c == 69 || c == 101 }

  function Expect(c: int, key: int, next: int): (int, Effect) {
    if c == key then (next, Go) else (WKT_START, InvalidBack)
  }

  /** Number states: 22 sign, 25 digits, 0 point, 26 leading point, 23 fraction, 1 mark, 2 mark and sign, 24 power. */
  function NumberRow(cs: int, c: int): (int, Effect) {
    match cs
    case 22 => if c == 46 then (0, Go) else if Digit(c) then (25, MarkNumber) else (WKT_START, InvalidHere)
    case 25 =>
      if c == 46 then (0, Go)
      else if PowerMark(c) then (1, Go)
      else if Digit(c) then (25, MarkNumber)
      else (WKT_START, NumberHere)
    case 0 => if Digit(c) then (23, Mark) else (WKT_START, Back)
    case 26 => if Digit(c) then (23, Mark) else (WKT_START, InvalidHere)
    case 23 => if PowerMark(c) then (1, Go) else if Digit(c) then (23, Mark) else (WKT_START, NumberHere)
    case 1 => if Sign(c) then (2, Go) else if Digit(c) then (24, Go) else (WKT_START, NumberBack)
    case 2 => if Digit(c) then (24, Go) else (WKT_START, NumberBack)
    case _ => if Digit(c) then (24, Go) else (WKT_START, NumberHere)
  }

  /** Keyword states: 27 E.., 28 L.., 29 P... */
  function KeywordRow(cs: int, c: int): (int, Effect) {
    match cs
    case 27 => if c == 77 then (3, Go) else (WKT_START, InvalidHere)
    case 3 => Expect(c, 80, 4)
    case 4 => Expect(c, 84, 5)
    case 5 => if c == 89 then (WKT_START, Emit(Empty)) else (WKT_START, InvalidBack)
    case 28 => if c == 73 then (6, Go) else (WKT_START, InvalidHere)
    case 6 => Expect(c, 78, 7)
    case 7 => Expect(c, 69, 8)
    case 8 => Expect(c, 83, 9)
    case 9 => Expect(c, 84, 10)
    case 10 => Expect(c, 82, 11)
    case 11 => Expect(c, 73, 12)
    case 12 => Expect(c, 78, 13)
    case 13 => if c == 71 then (WKT_START, Emit(TypeLineString)) else (WKT_START, InvalidBack)
    case 29 => if c == 79 then (14, Go) else (WKT_START, InvalidHere)
    case 14 => if c == 73 then (15, Go) else Expect(c, 76, 17)
    case 15 => Expect(c, 78, 16)
    case 16 => if c == 84 then (WKT_START, Emit(TypePoint)) else (WKT_START, InvalidBack)
    case 17 => Expect(c, 89, 18)
    case 18 => Expect(c, 71, 19)
    case 19 => Expect(c, 79, 20)
    case _ => if c == 78 then (WKT_START, Emit(TypePolygon)) else (WKT_START, InvalidBack)
  }

  function StartRow(c: int): (int, Effect) {
    if c == 9 || c == 32 then (WKT_START, Skip)
    else if c == 40 then (WKT_START, Emit(OpenParen))
    else if c == 41 then (WKT_START, Emit(CloseParen))
    else if c == 44 then (WKT_START, Emit(Comma))
    else if c == 46 then (26, Go)
    else if c == 69 then (27, Mark)
    else if c == 76 then (28, Mark)
    else if c == 80 then (29, Mark)
    else if Sign(c) then (22, MarkInvalid)
    else if Digit(c) then (25, MarkNumber)
    else (WKT_START, Emit(Invalid))
  }

  predicate IsNumberState(cs: int) { (0 <= cs <= 2) || (22 <= cs <= 26) }

  function Row(cs: int, c: int): (int, Effect)
    requires IsState(cs)
  {
    if cs == WKT_START then StartRow(c) else if IsNumberState(cs) then NumberRow(cs, c) else KeywordRow(cs, c)
  }

  /** The transition made at the end of the text; there is none in the start state. */
  function EofRow(cs: int): Effect {
    if cs == 0 then Back
    else if cs == 1 || cs == 2 then NumberBack
    else if 3 <= cs <= 20 then InvalidBack
    else if 23 <= cs <= 25 then NumberHere
    else InvalidHere
  }

  // ---------- the tables encode the automaton ----------

  predicate Encodes(t: int, row: (int, Effect)) {
    TransTargs(t) == row.0 && TransActions(t) == ActionOf(row.1)
  }

  lemma StartEncoded(c: int, t: int)
    requires Selects(Keys(WKT_START).0, Keys(WKT_START).1, IndexOffsets(WKT_START), c, t)
    ensures Encodes(t, StartRow(c))
  {
    var rs := [43, 45, 48, 57];
    assert Keys(WKT_START) == ([9, 32, 40, 41, 44, 46, 69, 76, 80], rs);
    assert Covers(rs, 0, c) <==> 43 <= c <= 45;
    assert Covers(rs, 1, c) <==> 48 <= c <= 57;
  }

  lemma NumberEncoded(cs: int, c: int, t: int)
    requires IsState(cs) && IsNumberState(cs) && Selects(Keys(cs).0, Keys(cs).1, IndexOffsets(cs), c, t)
    ensures Encodes(t, NumberRow(cs, c))
  {
    assert Keys(cs).1 == [48, 57];
    assert Covers([48, 57], 0, c) <==> Digit(c);
  }

  lemma EarlyKeywordEncoded(cs: int, c: int, t: int)
    requires 3 <= cs < 12 && Selects(Keys(cs).0, Keys(cs).1, IndexOffsets(cs), c, t)
    ensures Encodes(t, KeywordRow(cs, c))
  {
    assert Keys(cs).1 == [];
  }

  lemma LateKeywordEncoded(cs: int, c: int, t: int)
    requires IsState(cs) && cs >= 12 && !IsNumberState(cs) && cs != WKT_START
    requires Selects(Keys(cs).0, Keys(cs).1, IndexOffsets(cs), c, t)
    ensures Encodes(t, KeywordRow(cs, c))
  {
    assert Keys(cs).1 == [];
  }

  lemma KeywordEncoded(cs: int, c: int, t: int)
    requires IsState(cs) && cs != WKT_START && !IsNumberState(cs)
    requires Selects(Keys(cs).0, Keys(cs).1, IndexOffsets(cs), c, t)
    ensures Encodes(t, KeywordRow(cs, c))
  {
    if cs < 12 {
      EarlyKeywordEncoded(cs, c, t);
    } else {
      LateKeywordEncoded(cs, c, t);
    }
  }

  lemma RowEncoded(cs: int, c: int, t: int)
    requires IsState(cs) && IsTransition(cs, c, t)
    ensures Encodes(t, Row(cs, c))
  {
    KeysAre(cs);
    if cs == WKT_START {
      StartEncoded(c, t);
    } else if IsNumberState(cs) {
      NumberEncoded(cs, c, t);
    } else {
      KeywordEncoded(cs, c, t);
    }
  }

  lemma EofEncoded(cs: int)
    requires IsState(cs)
    ensures if cs == WKT_START then EofTrans(cs) == 0
            else EofTrans(cs) > 0 && Encodes(EofTrans(cs) - 1, (WKT_START, EofRow(cs)))
  {
  }

  // ---------- actions ----------

  /** The scanner's registers; `number` is the span given to atof, `out` is the jump to the end. */
  datatype Regs = Regs(p: int, ts: int, te: int, act: int, token: Token, number: Option<(int, int)>, out: bool)

  function Finish(g: Regs, p: int, token: Token): Regs {
    g.(p := p, token := token, out := true)
  }

  function FinishNumber(g: Regs, p: int): Regs {
    g.(p := p, te := p, token := Number, number := Some((g.ts, p)), out := true)
  }

  /** One action code of src/wkt.cpp:172-177, 240-337 and 344-348. */
  function Execute(code: int, g: Regs): Regs {
    match code
    case 0 => g.(ts := 0)
    case 1 => g.(ts := g.p)
    case 2 => g.(te := g.p + 1)
    case 3 => g.(act := 8)
    case 4 => g.(act := 10)
    case 5 => Finish(g.(te := g.p + 1), g.p + 1, TypePoint)
    case 6 => Finish(g.(te := g.p + 1), g.p + 1, TypeLineString)
    case 7 => Finish(g.(te := g.p + 1), g.p + 1, TypePolygon)
    case 8 => Finish(g.(te := g.p + 1), g.p + 1, Empty)
    case 9 => Finish(g.(te := g.p + 1), g.p + 1, OpenParen)
    case 10 => Finish(g.(te := g.p + 1), g.p + 1, CloseParen)
    case 11 => Finish(g.(te := g.p + 1), g.p + 1, Comma)
    case 12 => g.(te := g.p + 1)
    case 13 => Finish(g.(te := g.p + 1), g.p + 1, Invalid)
    case 14 => FinishNumber(g, g.p)
    case 15 => Finish(g.(te := g.p), g.p, Invalid)
    case 16 => FinishNumber(g, g.te)
    case 17 => Finish(g, g.te, Invalid)
    case 18 => if g.act == 8 then FinishNumber(g, g.te) else if g.act == 10 then Finish(g, g.te, Invalid) else g
    case _ => g
  }

  /** The n action codes from position i of the action table on, up to the first jump. */
  function ExecuteAll(i: int, n: nat, g: Regs): Regs
    decreases n
  {
    if n == 0 || g.out then g else ExecuteAll(i + 1, n - 1, Execute(Actions(i), g))
  }

  /** The action loop of the scanner. */
  method RunActions(a: int, g: Regs) returns (h: Regs)
    requires !g.out && Actions(a) >= 0
    ensures h == ExecuteAll(a + 1, Actions(a), g)
  {
    var i, n := a + 1, Actions(a);
    h := g;
    while n > 0 && !h.out
      invariant n >= 0
      invariant ExecuteAll(i, n, h) == ExecuteAll(a + 1, Actions(a), g)
      decreases n
    {
      h := Execute(Actions(i), h);
      i, n := i + 1, n - 1;
    }
  }

  /** What an effect does to the registers. */
  function Perform(e: Effect, g: Regs): Regs {
    match e
    case Go => g
    case Mark => g.(te := g.p + 1)
    case MarkNumber => g.(te := g.p + 1, act := 8)
    case MarkInvalid => g.(te := g.p + 1, act := 10)
    case Skip => g.(te := g.p + 1)
    case Emit(token) => Finish(g.(te := g.p + 1), g.p + 1, token)
    case NumberHere => FinishNumber(g, g.p)
    case InvalidHere => Finish(g.(te := g.p), g.p, Invalid)
    case NumberBack => FinishNumber(g, g.te)
    case InvalidBack => Finish(g, g.te, Invalid)
    case Back => if g.act == 8 then FinishNumber(g, g.te) else if g.act == 10 then Finish(g, g.te, Invalid) else g
  }

  predicate Emits(e: Effect) {
    e.Emit? ==> e.token != Eof && e.token != Number
  }

  lemma ExecuteOne(i: int, g: Regs)
    requires !g.out
    ensures ExecuteAll(i, 1, g) == Execute(Actions(i), g)
  {
    var h := Execute(Actions(i), g);
    assert ExecuteAll(i, 1, g) == ExecuteAll(i + 1, 0, h) == h;
  }

  lemma ExecuteTwo(i: int, g: Regs)
    requires !g.out && !Execute(Actions(i), g).out
    ensures ExecuteAll(i, 2, g) == Execute(Actions(i + 1), Execute(Actions(i), g))
  {
    ExecuteOne(i + 1, Execute(Actions(i), g));
  }

  lemma MarkEncoded(e: Effect, g: Regs)
    requires !g.out && (e == MarkNumber || e == MarkInvalid)
    ensures var a := ActionOf(e); Actions(a) == 2 && ExecuteAll(a + 1, 2, g) == Perform(e, g)
  {
    ExecuteTwo(ActionOf(e) + 1, g);
  }

  lemma OneEncoded(e: Effect, g: Regs)
    requires !g.out && Emits(e) && e != Go && e != MarkNumber && e != MarkInvalid
    ensures var a := ActionOf(e); Actions(a) == 1 && Execute(Actions(a + 1), g) == Perform(e, g)
  {
  }

  /** The action table gives every effect its meaning. */
  lemma EffectEncoded(e: Effect, g: Regs)
    requires !g.out && Emits(e)
    ensures var a := ActionOf(e); Actions(a) >= 0 && ExecuteAll(a + 1, Actions(a), g) == Perform(e, g)
  {
    if e == MarkNumber || e == MarkInvalid {
      MarkEncoded(e, g);
    } else if e != Go {
      OneEncoded(e, g);
      ExecuteOne(ActionOf(e) + 1, g);
    }
  }
}

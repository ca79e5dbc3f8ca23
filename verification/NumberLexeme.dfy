/**
 * The number token of the WKT grammar, src/wkt.rl:39: an optional sign, a decimal mantissa that
 * ends in a digit, and an optional exponent.
 */
module NumberLexeme {
  import opened Options

  predicate IsDigit(c: char) { '0' <= c <= '9' }

  predicate IsSign(c: char) { c == '+' || c == '-' }

  predicate IsExponentMark(c: char) { c == 'e' || c == 'E' }

  predicate Digits(s: string) { forall i :: 0 <= i < |s| ==> IsDigit(s[i]) }

  predicate OptionalSign(s: string) { s == "" || (|s| == 1 && IsSign(s[0])) }

  datatype Exponent = Exponent(mark: char, sign: string, digits: string) {
    predicate Valid() { IsExponentMark(mark) && OptionalSign(sign) && Digits(digits) && digits != "" }
    function Render(): string { [mark] + sign + digits }
  }

  /** Without a point the mantissa is `digits`, and `whole` is empty. */
  datatype Number = Number(sign: string, whole: string, point: bool, digits: string, exponent: Option<Exponent>) {
    predicate Valid() {
      && OptionalSign(sign)
      && Digits(whole) && (!point ==> whole == "")
      && Digits(digits) && digits != ""
      && (exponent.Some? ==> exponent.value.Valid())
    }
    function Mantissa(): string { whole + (if point then "." else "") + digits }
    function Render(): string {
      sign + Mantissa() + if exponent.Some? then exponent.value.Render() else ""
    }
  }

  /** The strings that the grammar derives. */
  ghost predicate IsNumber(s: string) {
    exists n: Number :: n.Valid() && n.Render() == s
  }

  // ---------- a deterministic recogniser ----------

  datatype State = Start | Signed | Whole | Point | Fraction | Mark | MarkSign | Power | Dead

  predicate Accepting(s: State) { s == Whole || s == Fraction || s == Power }

  function Delta(s: State, c: char): State {
    match s
    case Start => if IsSign(c) then Signed else if IsDigit(c) then Whole else if c == '.' then Point else Dead
    case Signed => if IsDigit(c) then Whole else if c == '.' then Point else Dead
    case Whole => if IsDigit(c) then Whole else if c == '.' then Point else if IsExponentMark(c) then Mark else Dead
    case Point => if IsDigit(c) then Fraction else Dead
    case Fraction => if IsDigit(c) then Fraction else if IsExponentMark(c) then Mark else Dead
    case Mark => if IsDigit(c) then Power else if IsSign(c) then MarkSign else Dead
    case MarkSign => if IsDigit(c) then Power else Dead
    case Power => if IsDigit(c) then Power else Dead
    case Dead => Dead
  }

  function Run(from: State, s: string): State
    decreases |s|
  {
    if s == "" then from else Run(Delta(from, s[0]), s[1..])
  }

  lemma {:induction false} RunConcat(from: State, a: string, b: string)
    ensures Run(from, a + b) == Run(Run(from, a), b)
    decreases |a|
  {
    if a == "" {
      assert a + b == b;
    } else {
      assert (a + b)[1..] == a[1..] + b;
      RunConcat(Delta(from, a[0]), a[1..], b);
    }
  }

  lemma RunAppend(from: State, a: string, c: char)
    ensures Run(from, a + [c]) == Delta(Run(from, a), c)
  {
    RunConcat(from, a, [c]);
    assert Run(Run(from, a), [c]) == Run(Delta(Run(from, a), c), "");
  }

  lemma {:induction false} DeadForever(s: string)
    ensures Run(Dead, s) == Dead
  {
    if s != "" {
      DeadForever(s[1..]);
    }
  }

  /** A run of digits from a state that digits do not leave. */
  lemma {:induction false} RunDigits(from: State, to: State, s: string)
    requires Digits(s) && s != ""
    requires forall c :: IsDigit(c) ==> Delta(from, c) == to && Delta(to, c) == to
    ensures Run(from, s) == to
    decreases |s|
  {
    if |s| > 1 {
      RunDigits(to, to, s[1..]);
    } else {
      assert s[1..] == "";
      assert Run(Delta(from, s[0]), s[1..]) == to;
    }
  }

  lemma NumbersAreAccepted(n: Number)
    requires n.Valid()
    ensures Accepting(Run(Start, n.Render()))
  {
    var tail := if n.exponent.Some? then n.exponent.value.Render() else "";
    RunConcat(Start, n.sign + n.Mantissa(), tail);
    RunConcat(Start, n.sign, n.Mantissa());
    var s := Run(Start, n.sign);
    SignRun(Start, n.sign);
    MantissaRun(s, n);
    if n.exponent.Some? {
      ExponentRun(Run(s, n.Mantissa()), n.exponent.value);
    }
  }

  lemma SignRun(from: State, sign: string)
    requires OptionalSign(sign) && (from == Start || from == Mark)
    ensures Run(from, sign) == if sign == "" then from else if from == Start then Signed else MarkSign
  {
    if sign != "" {
      assert sign[1..] == "";
      assert Run(from, sign) == Run(Delta(from, sign[0]), sign[1..]);
    }
  }

  lemma MantissaRun(from: State, n: Number)
    requires n.Valid() && (from == Start || from == Signed)
    ensures Run(from, n.Mantissa()) == if n.point then Fraction else Whole
  {
    if n.point {
      RunConcat(from, n.whole + ".", n.digits);
      RunConcat(from, n.whole, ".");
      if n.whole != "" {
        RunDigits(from, Whole, n.whole);
      }
      var w := Run(from, n.whole);
      assert Run(w, ".") == Run(Delta(w, '.'), "");
      RunDigits(Point, Fraction, n.digits);
    } else {
      assert n.Mantissa() == n.digits;
      RunDigits(from, Whole, n.digits);
    }
  }

  lemma ExponentRun(from: State, e: Exponent)
    requires e.Valid() && (from == Whole || from == Fraction)
    ensures Run(from, e.Render()) == Power
  {
    RunConcat(from, [e.mark] + e.sign, e.digits);
    RunConcat(from, [e.mark], e.sign);
    assert Run(from, [e.mark]) == Run(Delta(from, e.mark), "");
    SignRun(Mark, e.sign);
    RunDigits(Run(Mark, e.sign), Power, e.digits);
  }

  // ---------- every accepted string is a number ----------

  /** The recogniser's state and the parts of the number read so far. */
  predicate Reads(st: State, s: string, n: Number) {
    && OptionalSign(n.sign) && Digits(n.whole) && Digits(n.digits) && (!n.point ==> n.whole == "")
    && match st
       case Start => s == "" && n == Number("", "", false, "", None)
       case Signed => s == n.sign && n.sign != "" && n == Number(n.sign, "", false, "", None)
       case Whole => n.exponent.None? && !n.point && n.digits != "" && s == n.sign + n.digits
       case Point => n.exponent.None? && n.point && n.digits == "" && s == n.sign + n.whole + "."
       case Fraction => n.exponent.None? && n.point && n.digits != "" && s == n.sign + n.whole + "." + n.digits
       case Mark => ReadsExponent(s, n) && n.exponent.value.sign == "" && n.exponent.value.digits == ""
       case MarkSign => ReadsExponent(s, n) && n.exponent.value.sign != "" && n.exponent.value.digits == ""
       case Power => ReadsExponent(s, n) && n.exponent.value.digits != ""
       case Dead => false
  }

  predicate ReadsExponent(s: string, n: Number) {
    && n.exponent.Some? && n.digits != ""
    && IsExponentMark(n.exponent.value.mark) && OptionalSign(n.exponent.value.sign)
    && Digits(n.exponent.value.digits)
    && s == n.sign + n.Mantissa() + n.exponent.value.Render()
  }

  function Extend(st: State, n: Number, c: char): Number {
    match st
    case Start =>
      if IsSign(c) then n.(sign := [c]) else if IsDigit(c) then n.(digits := [c]) else n.(point := true)
    case Signed => if IsDigit(c) then n.(digits := [c]) else n.(point := true)
    case Whole =>
      if IsDigit(c) then n.(digits := n.digits + [c])
      else if c == '.' then n.(whole := n.digits, point := true, digits := "")
      else n.(exponent := Some(Exponent(c, "", "")))
    case Point => n.(digits := [c])
    case Fraction =>
      if IsDigit(c) then n.(digits := n.digits + [c]) else n.(exponent := Some(Exponent(c, "", "")))
    case Mark =>
      if n.exponent.None? then n
      else if IsSign(c) then n.(exponent := Some(n.exponent.value.(sign := [c])))
      else n.(exponent := Some(n.exponent.value.(digits := [c])))
    case MarkSign =>
      if n.exponent.None? then n else n.(exponent := Some(n.exponent.value.(digits := [c])))
    case Power =>
      if n.exponent.None? then n
      else n.(exponent := Some(n.exponent.value.(digits := n.exponent.value.digits + [c])))
    case Dead => n
  }

  lemma ReadsMore(st: State, s: string, n: Number, c: char)
    requires Reads(st, s, n) && Delta(st, c) != Dead
    ensures Reads(Delta(st, c), s + [c], Extend(st, n, c))
  {
    if st == Mark || st == MarkSign || st == Power {
      ReadsMoreExponent(st, s, n, c);
    }
  }

  lemma ReadsMoreExponent(st: State, s: string, n: Number, c: char)
    requires Reads(st, s, n) && Delta(st, c) != Dead
    requires st == Mark || st == MarkSign || st == Power
    ensures Reads(Delta(st, c), s + [c], Extend(st, n, c))
  {
    match st
    case Mark =>
      if IsSign(c) {
        LongerExponent(s, n, n.exponent.value.(sign := [c]), c);
      } else {
        LongerExponent(s, n, n.exponent.value.(digits := [c]), c);
      }
    case MarkSign => LongerExponent(s, n, n.exponent.value.(digits := [c]), c);
    case Power => LongerExponent(s, n, n.exponent.value.(digits := n.exponent.value.digits + [c]), c);
  }

  lemma LongerExponent(s: string, n: Number, e: Exponent, c: char)
    requires ReadsExponent(s, n) && IsExponentMark(e.mark) && OptionalSign(e.sign) && Digits(e.digits)
    requires e.Render() == n.exponent.value.Render() + [c]
    ensures ReadsExponent(s + [c], n.(exponent := Some(e)))
  {
    var longer := n.(exponent := Some(e));
    assert longer.Mantissa() == n.Mantissa();
    assert n.sign + n.Mantissa() + (n.exponent.value.Render() + [c]) == s + [c];
  }

  lemma {:induction false} RunReads(s: string) returns (n: Number)
    requires Run(Start, s) != Dead
    ensures Reads(Run(Start, s), s, n)
  {
    if s == "" {
      n := Number("", "", false, "", None);
    } else {
      var a, c := s[..|s| - 1], s[|s| - 1];
      assert s == a + [c];
      RunAppend(Start, a, c);
      n := RunReads(a);
      ReadsMore(Run(Start, a), a, n, c);
      n := Extend(Run(Start, a), n, c);
    }
  }

  /** The recogniser accepts exactly the numbers of the grammar. */
  lemma RecogniserIsExact(s: string)
    ensures IsNumber(s) <==> Accepting(Run(Start, s))
  {
    if IsNumber(s) {
      var n: Number :| n.Valid() && n.Render() == s;
      NumbersAreAccepted(n);
    }
    if Accepting(Run(Start, s)) {
      var n := RunReads(s);
      assert n.Valid() && n.Render() == s;
    }
  }
}

/** Exact decimals: the number grammar of section 6 of RFC 8259, the money-column guards and
    the fixed-precision printing used for every amount. */
module Decimal {
  import opened Outcomes
  import opened Strings

  /* Money columns are NUMERIC(38,12). */
  const MONEY_SCALE: nat := 12
  const MONEY_PRECISION: nat := 38

  // ------------------------------------------------------------------ sliding the decimal point

  /** x * 10^e. */
  function Shift(x: real, e: int): real
    decreases if e >= 0 then e else -e
  {
    if e == 0 then x else if e > 0 then 10.0 * Shift(x, e - 1) else Shift(x, e + 1) / 10.0
  }

  /** x * 10^n on integers. */
  function Scale(x: int, n: nat): int {
    if n == 0 then x else 10 * Scale(x, n - 1)
  }

  lemma ShiftStep(x: real, e: int)
    ensures Shift(x, e + 1) == 10.0 * Shift(x, e)
  {}

  lemma {:induction false} ShiftShift(x: real, a: int, b: int)
    ensures Shift(Shift(x, a), b) == Shift(x, a + b)
    decreases if b >= 0 then b else -b
  {
    if b > 0 {
      ShiftShift(x, a, b - 1);
      ShiftStep(x, a + b - 1);
    } else if b < 0 {
      ShiftShift(x, a, b + 1);
      ShiftStep(x, a + b);
    }
  }

  lemma {:induction false} ShiftOrder(x: real, y: real, e: int)
    ensures x < y <==> Shift(x, e) < Shift(y, e)
    decreases if e >= 0 then e else -e
  {
    if e > 0 {
      ShiftOrder(x, y, e - 1);
    } else if e < 0 {
      ShiftOrder(x, y, e + 1);
    }
  }

  lemma {:induction false} ShiftLinear(x: real, y: real, e: int)
    ensures Shift(x - y, e) == Shift(x, e) - Shift(y, e)
    ensures Shift(0.0, e) == 0.0
    decreases if e >= 0 then e else -e
  {
    if e > 0 {
      ShiftLinear(x, y, e - 1);
    } else if e < 0 {
      ShiftLinear(x, y, e + 1);
    }
  }

  lemma ShiftAbs(x: real, e: int)
    ensures Shift(Abs(x), e) == Abs(Shift(x, e))
  {
    ShiftLinear(0.0, x, e);
    ShiftOrder(x, 0.0, e);
  }

  lemma {:induction false} ShiftOfInt(x: int, n: nat)
    ensures Shift(x as real, n) == Scale(x, n) as real
  {
    if n > 0 { ShiftOfInt(x, n - 1); }
  }

  lemma {:induction false} ScaleScale(x: int, a: nat, b: nat)
    ensures Scale(Scale(x, a), b) == Scale(x, a + b)
  {
    if b > 0 { ScaleScale(x, a, b - 1); }
  }

  lemma {:induction false} ScalePlus(x: int, y: int, n: nat)
    ensures Scale(x + y, n) == Scale(x, n) + Scale(y, n)
    ensures Scale(-x, n) == -Scale(x, n)
    ensures x >= 1 ==> Scale(x, n) >= 1
    ensures Scale(0, n) == 0
  {
    if n > 0 { ScalePlus(x, y, n - 1); }
  }

  /** 10^a <= 10^b. */
  lemma {:induction false} PowerOrder(a: int, b: int)
    requires a <= b
    ensures 0.0 < Shift(1.0, a) <= Shift(1.0, b)
    decreases b - a
  {
    if a < b {
      PowerOrder(a, b - 1);
      ShiftStep(1.0, b - 1);
    } else {
      ShiftOrder(0.0, 1.0, a);
      ShiftLinear(0.0, 0.0, a);
    }
  }

  // ------------------------------------------------------------------ digit strings

  predicate IsDigit(c: char) { '0' <= c <= '9' }

  predicate AllDigits(s: string) { forall i :: 0 <= i < |s| ==> IsDigit(s[i]) }

  function DigitValue(c: char): (r: nat)
    requires IsDigit(c)
    ensures r <= 9
  {
    (c - '0') as nat
  }

  function DigitChar(d: nat): (c: char)
    requires d <= 9
    ensures IsDigit(c) && DigitValue(c) == d
  {
    '0' + d as char
  }

  function DigitsValue(s: string): nat
    requires AllDigits(s)
  {
    if s == "" then 0 else 10 * DigitsValue(s[..|s| - 1]) + DigitValue(s[|s| - 1])
  }

  lemma {:induction false} DigitsValueConcat(a: string, b: string)
    requires AllDigits(a) && AllDigits(b)
    ensures AllDigits(a + b)
    ensures DigitsValue(a + b) == Scale(DigitsValue(a), |b|) + DigitsValue(b)
    decreases |b|
  {
    if b == "" {
      assert a + b == a;
    } else {
      var init := b[..|b| - 1];
      DigitsValueConcat(a, init);
      assert (a + b)[..|a + b| - 1] == a + init;
    }
  }

  lemma {:induction false} DigitsValueBound(s: string)
    requires AllDigits(s)
    ensures DigitsValue(s) < Scale(1, |s|)
    ensures s != "" && s[0] != '0' ==> DigitsValue(s) >= Scale(1, |s| - 1)
  {
    if s != "" {
      var init := s[..|s| - 1];
      DigitsValueBound(init);
      assert init != "" ==> init[0] == s[0];
    }
  }

  lemma {:induction false} LeadingZerosWorthless(s: string)
    requires AllDigits(s)
    ensures AllDigits(TrimLeftZeros(s)) && DigitsValue(TrimLeftZeros(s)) == DigitsValue(s)
  {
    if s != "" && s[0] == '0' {
      LeadingZerosWorthless(s[1..]);
      assert s == [s[0]] + s[1..];
      DigitsValueConcat([s[0]], s[1..]);
      assert DigitsValue([s[0]]) == 0;
      ScalePlus(0, 0, |s| - 1);
    }
  }

  // ------------------------------------------------------------------ the grammar

  /** One derivation of the grammar: an optional minus, an integer without superfluous leading
      zeros, an optional non-empty fraction and an optional signed exponent. */
  datatype ExpSign = NoSign | Plus | Minus
  datatype Exponent = Exponent(upper: bool, sign: ExpSign, digits: string)
  datatype Literal = Literal(negative: bool, integer: string, fraction: Option<string>, exponent: Option<Exponent>)
  {
    predicate WellFormed() {
      && AllDigits(integer) && integer != "" && (integer == "0" || integer[0] != '0')
      && (fraction.Some? ==> AllDigits(fraction.value) && fraction.value != "")
      && (exponent.Some? ==> AllDigits(exponent.value.digits) && exponent.value.digits != "")
    }

    function Frac(): string { if fraction.Some? then fraction.value else "" }

    function Exp(): int
      requires WellFormed()
    {
      if exponent.None? then 0
      else
        var n: int := DigitsValue(exponent.value.digits);
        if exponent.value.sign == Minus then -n else n
    }

    /* The value is Coefficient() * 10^Power(). */
    function Coefficient(): int
      requires WellFormed()
    {
      var all: int := DigitsValue(integer + Frac());
      if negative then -all else all
    }

    function Power(): int
      requires WellFormed()
    {
      Exp() - |Frac()|
    }

    function Value(): real
      requires WellFormed()
    {
      Shift(Coefficient() as real, Power())
    }

    function ExponentText(): string {
      if exponent.None? then ""
      else (if exponent.value.upper then "E" else "e")
           + (match exponent.value.sign case NoSign => "" case Plus => "+" case Minus => "-")
           + exponent.value.digits
    }

    function Unsigned(): string {
      integer + (if fraction.Some? then "." + fraction.value else "") + ExponentText()
    }

    function Text(): string { (if negative then "-" else "") + Unsigned() }
  }

  /** `s` spells the literal `l`, possibly padded with white space. */
  ghost predicate Spells(s: string, l: Literal) {
    l.WellFormed() && exists before, after :: Blank(before) && Blank(after) && s == before + l.Text() + after
  }

  // ------------------------------------------------------------------ string scanning, as the code does it

  function TrimLeftSigns(s: string): string {
    if s != "" && (s[0] == '+' || s[0] == '-') then TrimLeftSigns(s[1..]) else s
  }

  function TrimLeftZeros(s: string): (r: string)
    ensures |r| <= |s|
    ensures r != "" ==> r[0] != '0'
  {
    if s != "" && s[0] == '0' then TrimLeftZeros(s[1..]) else s
  }

  /** The first index holding `a` or `b`, or -1. */
  function IndexAny(s: string, a: char, b: char): (r: int)
    ensures -1 <= r < |s|
    ensures r >= 0 ==> s[r] == a || s[r] == b
    ensures forall i :: 0 <= i < (if r < 0 then |s| else r) ==> s[i] != a && s[i] != b
  {
    if s == "" then -1
    else if s[0] == a || s[0] == b then 0
    else var r := IndexAny(s[1..], a, b);
      assert forall i :: 1 <= i < |s| ==> s[i] == s[1..][i - 1];
      if r < 0 then -1 else r + 1
  }

  /** Signed decimal text to integer; anything else yields 0, as the ignored error does. */
  function Atoi(s: string): int {
    var body := if s != "" && (s[0] == '+' || s[0] == '-') then s[1..] else s;
    if body == "" || !AllDigits(body) then 0
    else
      var n: int := DigitsValue(body);
      if s[0] == '-' then -n else n
  }

  /** Mantissa and exponent of the text. */
  function CutExponent(raw: string): (string, int) {
    var e := IndexAny(raw, 'e', 'E');
    if e >= 0 then (raw[..e], Atoi(raw[e + 1..])) else (raw, 0)
  }

  datatype Scanned = Scanned(integer: string, fraction: string, hasDot: bool, exponent: int)

  /** The cut every digit counter makes: the exponent off first, then the fraction. */
  function Scan(raw: string): Scanned {
    var (mantissa, exponent) := CutExponent(raw);
    var dot := IndexAny(mantissa, '.', '.');
    if dot >= 0 then Scanned(mantissa[..dot], mantissa[dot + 1..], true, exponent)
    else Scanned(mantissa, "", false, exponent)
  }

  function MoneyIntegerDigits(amount: string): int {
    var scanned := Scan(TrimLeftSigns(Trim(amount)));
    var all := scanned.integer + scanned.fraction;
    var significant := TrimLeftZeros(all);
    if significant == "" then 0
    else
      var digits := |scanned.integer| + scanned.exponent - (|all| - |significant|);
      if digits > 0 then digits else 0
  }

  function MoneyPlaces(amount: string): int {
    var scanned := Scan(Trim(amount));
    var places := |scanned.fraction| - scanned.exponent;
    if places > 0 then places else 0
  }

  function DecimalPlaces(d: string): int {
    var scanned := Scan(Trim(d));
    if scanned.hasDot then
      var places := |scanned.fraction| - scanned.exponent;
      if places > 0 then places else 0
    else if scanned.exponent < 0 then -scanned.exponent
    else 0
  }

  /** Acceptance by `checkMoney`. */
  ghost predicate CheckMoney(amount: string) {
    && (exists l :: Spells(amount, l))
    && MoneyPlaces(amount) <= MONEY_SCALE
    && MoneyIntegerDigits(amount) <= MONEY_PRECISION - MONEY_SCALE
  }

  // ------------------------------------------------------------------ scanning is correct on the grammar

  lemma {:induction false} TrimLeftPadding(before: string, body: string)
    requires Blank(before) && body != "" && !IsSpace(body[0])
    ensures TrimLeft(before + body) == body
  {
    if before == "" {
      assert before + body == body;
    } else {
      assert (before + body)[1..] == before[1..] + body;
      TrimLeftPadding(before[1..], body);
    }
  }

  lemma {:induction false} TrimRightPadding(body: string, after: string)
    requires Blank(after) && body != "" && !IsSpace(body[|body| - 1])
    ensures TrimRight(body + after) == body
  {
    if after == "" {
      assert body + after == body;
    } else {
      assert (body + after)[..|body + after| - 1] == body + after[..|after| - 1];
      TrimRightPadding(body, after[..|after| - 1]);
    }
  }

  lemma TextEnds(l: Literal)
    requires l.WellFormed()
    ensures l.Unsigned() != "" && IsDigit(l.Unsigned()[0]) && IsDigit(l.Unsigned()[|l.Unsigned()| - 1])
    ensures l.Text() != "" && !IsSpace(l.Text()[0]) && !IsSpace(l.Text()[|l.Text()| - 1])
  {
    var u := l.Unsigned();
    assert u[0] == l.integer[0];
    if l.exponent.Some? {
      var d := l.exponent.value.digits;
      assert u[|u| - 1] == d[|d| - 1];
    } else if l.fraction.Some? {
      assert u[|u| - 1] == l.fraction.value[|l.fraction.value| - 1];
    } else {
      assert u == l.integer;
    }
    assert l.Text()[|l.Text()| - 1] == u[|u| - 1];
  }

  lemma TrimPadded(before: string, body: string, after: string)
    requires Blank(before) && Blank(after)
    requires body != "" && !IsSpace(body[0]) && !IsSpace(body[|body| - 1])
    ensures Trim(before + body + after) == body
  {
    assert before + body + after == before + (body + after);
    TrimLeftPadding(before, body + after);
    TrimRightPadding(body, after);
  }

  lemma TrimSpells(s: string, l: Literal)
    requires Spells(s, l)
    ensures Trim(s) == l.Text()
    ensures TrimLeftSigns(Trim(s)) == l.Unsigned()
  {
    hide Trim, TrimLeftSigns;
    var before, after :| Blank(before) && Blank(after) && s == before + l.Text() + after;
    TextEnds(l);
    TrimPadded(before, l.Text(), after);
    SignsOff(l.negative, l.Unsigned());
  }

  lemma SignsOff(negative: bool, u: string)
    requires u != "" && IsDigit(u[0])
    ensures TrimLeftSigns((if negative then "-" else "") + u) == u
  {
    if negative {
      assert ("-" + u)[1..] == u;
    } else {
      assert "" + u == u;
    }
  }

  lemma FirstIndex(s: string, a: char, b: char, k: int)
    requires 0 <= k < |s| && (s[k] == a || s[k] == b)
    requires forall i :: 0 <= i < k ==> s[i] != a && s[i] != b
    ensures IndexAny(s, a, b) == k
  {
    var r := IndexAny(s, a, b);
    assert s[k] == a || s[k] == b;
  }

  lemma NoIndex(s: string, a: char, b: char)
    requires forall i :: 0 <= i < |s| ==> s[i] != a && s[i] != b
    ensures IndexAny(s, a, b) == -1
  {
    var r := IndexAny(s, a, b);
  }

  predicate MantissaChars(s: string) {
    forall i :: 0 <= i < |s| ==> IsDigit(s[i]) || s[i] == '.' || s[i] == '-'
  }

  lemma CutAt(mantissa: string, mark: char, tail: string)
    requires MantissaChars(mantissa) && (mark == 'e' || mark == 'E')
    ensures CutExponent(mantissa + ([mark] + tail)) == (mantissa, Atoi(tail))
  {
    hide Atoi, IndexAny;
    var raw := mantissa + ([mark] + tail);
    assert raw[|mantissa|] == mark;
    FirstIndex(raw, 'e', 'E', |mantissa|);
    assert raw[..|mantissa|] == mantissa && raw[|mantissa| + 1..] == tail;
  }

  lemma CutExponentOff(mantissa: string, l: Literal)
    requires l.WellFormed() && MantissaChars(mantissa)
    ensures CutExponent(mantissa + l.ExponentText()) == (mantissa, l.Exp())
  {
    hide Atoi, IndexAny, CutExponent, MantissaChars;
    if l.exponent.Some? {
      var x := l.exponent.value;
      var signText := match x.sign case NoSign => "" case Plus => "+" case Minus => "-";
      var mark := if x.upper then 'E' else 'e';
      assert l.ExponentText() == [mark] + (signText + x.digits);
      CutAt(mantissa, mark, signText + x.digits);
      AtoiSigned(signText, x.digits);
    } else {
      assert mantissa + "" == mantissa;
      NothingToCut(mantissa);
    }
  }

  lemma NothingToCut(mantissa: string)
    requires MantissaChars(mantissa)
    ensures CutExponent(mantissa) == (mantissa, 0)
  {
    NoIndex(mantissa, 'e', 'E');
  }

  lemma MantissaCut(left: string, fraction: Option<string>)
    requires forall i :: 0 <= i < |left| ==> IsDigit(left[i]) || left[i] == '-'
    requires fraction.Some? ==> AllDigits(fraction.value)
    ensures var mantissa := left + if fraction.Some? then ['.'] + fraction.value else "";
            var dot := IndexAny(mantissa, '.', '.');
            && MantissaChars(mantissa)
            && (fraction.None? ==> mantissa == left && dot == -1)
            && (fraction.Some? ==> dot == |left| && mantissa[..dot] == left && mantissa[dot + 1..] == fraction.value)
  {
    hide IndexAny;
    if fraction.Some? {
      var mantissa := left + (['.'] + fraction.value);
      assert mantissa[|left|] == '.';
      FirstIndex(mantissa, '.', '.', |left|);
    } else {
      assert left + "" == left;
      NoIndex(left, '.', '.');
    }
  }

  /** `Scan` recovers integer digits, fraction digits and exponent, whether or not a sign is still in front. */
  lemma ScanLiteral(l: Literal, prefix: string)
    requires l.WellFormed() && (prefix == "" || prefix == "-")
    ensures Scan(prefix + l.Unsigned()) == Scanned(prefix + l.integer, l.Frac(), l.fraction.Some?, l.Exp())
  {
    hide CutExponent, IndexAny, MantissaChars, DigitsValue;
    var left := prefix + l.integer;
    var mantissa := left + if l.fraction.Some? then ['.'] + l.fraction.value else "";
    assert prefix + l.Unsigned() == mantissa + l.ExponentText();
    MantissaCut(left, l.fraction);
    CutExponentOff(mantissa, l);
  }

  lemma AtoiSigned(sign: string, digits: string)
    requires sign == "" || sign == "+" || sign == "-"
    requires AllDigits(digits) && digits != ""
    ensures var n: int := DigitsValue(digits);
            Atoi(sign + digits) == if sign == "-" then -n else n
  {
    var s := sign + digits;
    if sign == "" {
      assert s == digits;
    } else {
      assert s[1..] == digits;
    }
  }

  // ------------------------------------------------------------------ digit counting is correct

  function Abs(x: real): real { if x < 0.0 then -x else x }

  function AbsInt(x: int): int { if x < 0 then -x else x }

  lemma AbsValue(l: Literal)
    requires l.WellFormed()
    ensures AllDigits(l.integer + l.Frac())
    ensures Abs(l.Value()) == Shift(DigitsValue(l.integer + l.Frac()) as real, l.Power())
  {
    ShiftAbs(l.Coefficient() as real, l.Power());
  }

  /** On the grammar the counter sees the digits without their leading zeros, and where the point falls in them. */
  lemma DigitsCounted(s: string, l: Literal)
    requires Spells(s, l)
    ensures l.WellFormed()
    ensures var significant := TrimLeftZeros(l.integer + l.Frac());
            var k := |significant| + l.Power();
            MoneyIntegerDigits(s) == if significant == "" || k <= 0 then 0 else k
  {
    hide Scan, Trim, TrimLeftSigns, TrimLeftZeros, Blank, DigitsValue;
    TrimSpells(s, l);
    ScanLiteral(l, "");
    assert "" + l.Unsigned() == l.Unsigned();
    assert "" + l.integer == l.integer;
  }

  /** `moneyIntegerDigits` is the number of digits left of the decimal point: the least n with
      |value| < 10^n. A zero value has none. */
  lemma IntegerDigitsAreTrue(s: string, l: Literal)
    requires Spells(s, l)
    ensures var n := MoneyIntegerDigits(s);
            && n >= 0
            && Abs(l.Value()) < Shift(1.0, n)
            && (n > 0 ==> Abs(l.Value()) >= Shift(1.0, n - 1))
  {
    hide Spells, Shift, TrimLeftZeros, MoneyIntegerDigits, DigitsValue;
    DigitsCounted(s, l);
    AbsValue(l);
    var all := l.integer + l.Frac();
    var significant := TrimLeftZeros(all);
    LeadingZerosWorthless(all);
    SignificantRange(significant, l.Power());
    var k := |significant| + l.Power();
    if significant == "" {
      PowerOrder(0, 0);
    } else if k <= 0 {
      PowerOrder(k, 0);
    }
  }

  /** A digit string without leading zeros, scaled by 10^e, lies between consecutive powers of ten. */
  lemma SignificantRange(s: string, e: int)
    requires AllDigits(s)
    ensures s == "" ==> Shift(DigitsValue(s) as real, e) == 0.0
    ensures Shift(DigitsValue(s) as real, e) < Shift(1.0, |s| + e)
    ensures s != "" && s[0] != '0' ==> Shift(1.0, |s| - 1 + e) <= Shift(DigitsValue(s) as real, e)
  {
    var k := |s|;
    DigitsValueBound(s);
    ShiftLinear(0.0, 0.0, e);
    ShiftOfInt(1, k);
    ShiftShift(1.0, k, e);
    ShiftOrder(DigitsValue(s) as real, Shift(1.0, k), e);
    if s != "" && s[0] != '0' {
      ShiftOfInt(1, k - 1);
      ShiftShift(1.0, k - 1, e);
      ShiftOrder(DigitsValue(s) as real, Shift(1.0, k - 1), e);
    }
  }

  lemma PlacesOf(s: string, l: Literal)
    requires Spells(s, l)
    ensures MoneyPlaces(s) == DecimalPlaces(s) == if l.Power() < 0 then -l.Power() else 0
  {
    hide Scan, Trim, TrimLeftSigns, Blank, DigitsValue;
    TrimSpells(s, l);
    ScanLiteral(l, if l.negative then "-" else "");
    assert l.fraction.None? ==> l.Frac() == "";
  }

  /** A value with at most `p` places is a whole number of 10^-p units. */
  lemma WholeUnits(l: Literal, p: nat)
    requires l.WellFormed() && l.Power() + p >= 0
    ensures Shift(l.Value(), p) == Scale(l.Coefficient(), l.Power() + p) as real
  {
    ShiftShift(l.Coefficient() as real, l.Power(), p);
    ShiftOfInt(l.Coefficient(), l.Power() + p);
  }

  /** The stored units of an accepted amount: value = units / 10^12. */
  function Units(l: Literal): int
    requires l.WellFormed() && l.Power() + MONEY_SCALE >= 0
  {
    Scale(l.Coefficient(), l.Power() + MONEY_SCALE)
  }

  /** What NUMERIC(38,12) can hold, in units of 10^-12. */
  predicate Storable(units: int) { AbsInt(units) < Scale(1, MONEY_PRECISION) }

  lemma BelowCeiling(v: real, units: int)
    requires Shift(v, MONEY_SCALE) == units as real
    ensures Abs(v) < Shift(1.0, MONEY_PRECISION - MONEY_SCALE) <==> Storable(units)
  {
    hide Shift, Scale;
    var ceiling := Shift(1.0, MONEY_PRECISION - MONEY_SCALE);
    ShiftOrder(Abs(v), ceiling, MONEY_SCALE);
    ShiftAbs(v, MONEY_SCALE);
    ShiftShift(1.0, MONEY_PRECISION - MONEY_SCALE, MONEY_SCALE);
    ShiftOfInt(1, MONEY_PRECISION);
  }

  lemma SpellsSomething(s: string, l: Literal)
    requires Spells(s, l)
    ensures CheckMoney(s) <==> MoneyPlaces(s) <= MONEY_SCALE && MoneyIntegerDigits(s) <= MONEY_PRECISION - MONEY_SCALE
  {
    hide MoneyPlaces, MoneyIntegerDigits, Spells;
  }

  /** A digit count that is the least power of ten above a value is within a limit exactly when the value is. */
  lemma DigitLimit(v: real, n: nat, limit: nat)
    requires Abs(v) < Shift(1.0, n) && (n > 0 ==> Abs(v) >= Shift(1.0, n - 1))
    ensures n <= limit <==> Abs(v) < Shift(1.0, limit)
  {
    hide Shift;
    if n <= limit {
      PowerOrder(n, limit);
    } else {
      PowerOrder(limit, n - 1);
    }
  }

  /** `checkMoney` accepts a decimal exactly when it is spelled with at most 12 effective places and
      is below 10^26 in size; an accepted value is k / 10^12 with |k| < 10^38. */
  lemma CheckMoneyExact(s: string, l: Literal)
    requires Spells(s, l)
    ensures CheckMoney(s) <==> -l.Power() <= MONEY_SCALE && Abs(l.Value()) < Shift(1.0, MONEY_PRECISION - MONEY_SCALE)
    ensures CheckMoney(s) ==>
              && -l.Power() <= MONEY_SCALE
              && Shift(l.Value(), MONEY_SCALE) == Units(l) as real
              && Storable(Units(l))
  {
    assert l.WellFormed();
    hide Shift, Scale, Spells, CheckMoney, Storable, Abs, DigitsValue;
    Criterion(s, l, l.Value(), l.Power());
    if -l.Power() <= MONEY_SCALE {
      UnitsOf(l);
    }
  }

  lemma Criterion(s: string, l: Literal, value: real, power: int)
    requires Spells(s, l) && value == l.Value() && power == l.Power()
    ensures CheckMoney(s) <==> -power <= MONEY_SCALE && Abs(value) < Shift(1.0, MONEY_PRECISION - MONEY_SCALE)
  {
    hide Shift, MoneyIntegerDigits, MoneyPlaces, Spells, CheckMoney, Abs, DigitsValue;
    SpellsSomething(s, l);
    PlacesOf(s, l);
    IntegerDigitsAreTrue(s, l);
    DigitLimit(value, MoneyIntegerDigits(s), MONEY_PRECISION - MONEY_SCALE);
  }

  lemma UnitsOf(l: Literal)
    requires l.WellFormed() && -l.Power() <= MONEY_SCALE
    ensures Shift(l.Value(), MONEY_SCALE) == Units(l) as real
    ensures Abs(l.Value()) < Shift(1.0, MONEY_PRECISION - MONEY_SCALE) <==> Storable(Units(l))
  {
    hide Shift, Scale, Storable, Abs, DigitsValue;
    WholeUnits(l, MONEY_SCALE);
    BelowCeiling(l.Value(), Units(l));
  }

  /** The place count follows the spelling, not the value: this literal equals 1 and is refused. */
  lemma TrailingZerosRefused()
    ensures var l := Literal(false, "1", Some("0000000000000"), None);
            l.WellFormed() && !CheckMoney(l.Text()) && l.Value() == 1.0
  {
    hide CheckMoney;
    var zeros := "0000000000000";
    var l := Literal(false, "1", Some(zeros), None);
    assert Spells(l.Text(), l) by {
      assert Blank("") && l.Text() == "" + l.Text() + "";
    }
    CheckMoneyExact(l.Text(), l);
    assert l.Power() == -13;
    CoefficientOfPowerOfTen(zeros);
    ShiftOfInt(1, 13);
    ShiftShift(1.0, 13, -13);
  }

  lemma CoefficientOfPowerOfTen(zeros: string)
    requires forall i :: 0 <= i < |zeros| ==> zeros[i] == '0'
    ensures DigitsValue("1" + zeros) == Scale(1, |zeros|)
  {
    DigitsValueConcat("1", zeros);
    LeadingZerosWorthless(zeros);
    ZerosTrimAway(zeros);
    assert DigitsValue("1") == 1;
  }

  lemma {:induction false} ZerosTrimAway(s: string)
    requires forall i :: 0 <= i < |s| ==> s[i] == '0'
    ensures TrimLeftZeros(s) == ""
  {
    if s != "" { ZerosTrimAway(s[1..]); }
  }

  // ------------------------------------------------------------------ rounding and printing

  /** Nearest integer, halves away from zero. */
  function Round(x: real): (r: int)
    ensures Abs(r as real - x) <= 0.5
    ensures Abs(r as real - x) == 0.5 ==> Abs(r as real) > Abs(x)
    ensures x >= 0.0 ==> r >= 0
  {
    if x >= 0.0 then (x + 0.5).Floor else -((-x + 0.5).Floor)
  }

  /** The contract of `Round` leaves no other choice. */
  lemma RoundUnique(x: real, r: int)
    requires Abs(r as real - x) <= 0.5
    requires Abs(r as real - x) == 0.5 ==> Abs(r as real) > Abs(x)
    ensures r == Round(x)
  {
    var q := Round(x);
    assert (r - q) as real == (r as real - x) - (q as real - x);
  }

  lemma RoundNegate(x: real)
    ensures Round(-x) == -Round(x)
  {}

  function NatText(n: nat): (s: string)
    ensures AllDigits(s) && s != "" && DigitsValue(s) == n
    ensures s == "0" || s[0] != '0'
  {
    if n < 10 then
      [DigitChar(n)]
    else
      var init := NatText(n / 10);
      assert init != "0";
      var s := init + [DigitChar(n % 10)];
      assert s[..|s| - 1] == init;
      s
  }

  /** k without its last p digits. */
  function DropDigits(k: nat, p: nat): nat {
    if p == 0 then k else DropDigits(k / 10, p - 1)
  }

  /** The last p digits of k, with leading zeros where k is shorter. */
  function LastDigits(k: nat, p: nat): (s: string)
    ensures AllDigits(s) && |s| == p
  {
    if p == 0 then "" else LastDigits(k / 10, p - 1) + [DigitChar(k % 10)]
  }

  lemma {:induction false} DigitsSplit(k: nat, p: nat)
    ensures Scale(DropDigits(k, p), p) + DigitsValue(LastDigits(k, p)) == k
  {
    if p > 0 {
      var q, d := k / 10, k % 10;
      DigitsSplit(q, p - 1);
      DigitsValuePush(LastDigits(q, p - 1), DigitChar(d));
      hide DigitsValue;
      assert LastDigits(k, p) == LastDigits(q, p - 1) + [DigitChar(d)];
      assert Scale(DropDigits(k, p), p) == 10 * Scale(DropDigits(q, p - 1), p - 1);
    }
  }

  lemma DigitsValuePush(s: string, c: char)
    requires AllDigits(s) && IsDigit(c)
    ensures AllDigits(s + [c]) && DigitsValue(s + [c]) == 10 * DigitsValue(s) + DigitValue(c)
  {
    assert (s + [c])[..|s|] == s;
  }

  /** `k` units of 10^-p as integer and fraction digits. */
  function UnitsText(k: nat, p: nat): Literal {
    Literal(false, NatText(DropDigits(k, p)), if p == 0 then None else Some(LastDigits(k, p)), None)
  }

  lemma UnitsTextValue(k: nat, p: nat)
    ensures var l := UnitsText(k, p); l.WellFormed() && l.Coefficient() == k && l.Power() == -(p as int)
  {
    hide Scale, NatText, DropDigits, DigitsValue;
    DigitsSplit(k, p);
    DigitsValueConcat(NatText(DropDigits(k, p)), LastDigits(k, p));
    assert UnitsText(k, p).Frac() == LastDigits(k, p);
  }

  /** `big.Rat.FloatString(p)`: the nearest multiple of 10^-p, printed with exactly p places. */
  function FloatString(x: real, p: nat): Literal {
    ShiftAbs(x, p);
    UnitsText(Round(Shift(Abs(x), p)), p).(negative := x < 0.0)
  }

  /** What is printed is a decimal of the grammar worth the rounded number of units. */
  lemma FloatStringValue(x: real, p: nat)
    ensures var l := FloatString(x, p);
            && l.WellFormed() && l.Power() == -(p as int)
            && l.Coefficient() == Round(Shift(x, p))
            && Shift(l.Value(), p) == Round(Shift(x, p)) as real
  {
    var k := Round(Abs(Shift(x, p)));
    ShiftAbs(x, p);
    SignOfShift(x, p);
    RoundNegate(Shift(x, p));
    hide Shift, UnitsText, Round;
    UnitsTextValue(k, p);
    assert FloatString(x, p) == UnitsText(k, p).(negative := x < 0.0);
    assert FloatString(x, p).Frac() == UnitsText(k, p).Frac();
    WholeUnits(FloatString(x, p), p);
  }

  lemma SignOfShift(x: real, p: int)
    ensures x < 0.0 <==> Shift(x, p) < 0.0
  {
    ShiftLinear(0.0, 0.0, p);
    ShiftOrder(x, 0.0, p);
  }

  /** A value that is a whole number of 10^-p units is printed without loss. */
  lemma ExactWhenWhole(x: real, p: nat, k: int)
    requires Shift(x, p) == k as real
    ensures FloatString(x, p).WellFormed() && FloatString(x, p).Value() == x
    ensures FloatString(x, p).Coefficient() == k
  {
    hide Shift;
    FloatStringValue(x, p);
    RoundUnique(Shift(x, p), k);
    var l := FloatString(x, p);
    ShiftOrder(l.Value(), x, p);
    ShiftOrder(x, l.Value(), p);
  }

  /** `Decimal.Sub`: subtract exactly, print with the larger place count of the two spellings. */
  function Sub(a: string, la: Literal, b: string, lb: Literal): Literal
    requires la.WellFormed() && lb.WellFormed()
  {
    var pa, pb := DecimalPlaces(a), DecimalPlaces(b);
    FloatString(la.Value() - lb.Value(), if pb > pa then pb else pa)
  }

  /** Two values with at most p places differ by a whole number of 10^-p units, so printing the
      difference with p places loses nothing. */
  lemma DifferenceIsWhole(la: Literal, lb: Literal, p: nat)
    requires la.WellFormed() && lb.WellFormed() && la.Power() + p >= 0 && lb.Power() + p >= 0
    ensures FloatString(la.Value() - lb.Value(), p).WellFormed()
    ensures FloatString(la.Value() - lb.Value(), p).Value() == la.Value() - lb.Value()
  {
    WholeUnits(la, p);
    WholeUnits(lb, p);
    ShiftLinear(la.Value(), lb.Value(), p);
    hide Shift, Scale, FloatString;
    ExactWhenWhole(la.Value() - lb.Value(), p,
                   Scale(la.Coefficient(), la.Power() + p) - Scale(lb.Coefficient(), lb.Power() + p));
  }

  /** Printing with a fixed number of places never rounds a difference. */
  lemma SubIsExact(a: string, la: Literal, b: string, lb: Literal)
    requires Spells(a, la) && Spells(b, lb)
    ensures var d := Sub(a, la, b, lb); d.WellFormed() && d.Value() == la.Value() - lb.Value()
  {
    hide Blank, FloatString, Shift, DecimalPlaces, MoneyPlaces;
    PlacesOf(a, la);
    PlacesOf(b, lb);
    var pa, pb := DecimalPlaces(a), DecimalPlaces(b);
    DifferenceIsWhole(la, lb, if pb > pa then pb else pa);
  }

  /** Whole units of 10^-12 as the billing code prints them: the text passes `checkMoney` exactly when the
      column can hold the units, and then denotes those units. */
  lemma PrintedUnitsStorable(k: int)
    ensures var x := Shift(k as real, -12); var l := FloatString(x, 12);
            && l.WellFormed() && l.Value() == x && Units(l) == k
            && (CheckMoney(l.Text()) <==> Storable(k))
  {
    var x := Shift(k as real, -12);
    var l := FloatString(x, 12);
    ShiftShift(k as real, -12, 12);
    ExactWhenWhole(x, 12, k);
    FloatStringValue(x, 12);
    assert Units(l) == k;
    assert Spells(l.Text(), l) by {
      assert Blank("") && l.Text() == "" + l.Text() + "";
    }
    CheckMoneyExact(l.Text(), l);
    BelowCeiling(x, k);
  }

  // ------------------------------------------------------------------ the column

  /** Money columns hold 38 digits, twelve of them behind the point. */
  lemma MoneyLimits(units: int)
    ensures Storable(units) <==> -100_000_000_000_000_000_000_000_000_000_000_000_000 < units < 100_000_000_000_000_000_000_000_000_000_000_000_000
    ensures Scale(1, MONEY_SCALE) == 1_000_000_000_000
  {
    assert Scale(1, 4) == 10_000 by { assert Scale(1, 2) == 100; ScaleScale(1, 2, 2); }
    ScaleScale(1, 4, 4);
    ScaleOf(1, 4);
    ScaleOf(10_000, 4);
    ScaleScale(1, 8, 4);
    ScaleOf(100_000_000, 4);
    ScaleScale(1, 12, 12);
    ScaleTwelve(1);
    ScaleTwelve(1_000_000_000_000);
    ScaleScale(1, 24, 12);
    ScaleTwelve(1_000_000_000_000_000_000_000_000);
    ScaleScale(1, 36, 2);
  }

  lemma ScaleOf(x: int, n: nat)
    requires n == 4
    ensures Scale(x, n) == 10_000 * x
  {
    assert Scale(x, 1) == 10 * x && Scale(x, 2) == 100 * x && Scale(x, 3) == 1_000 * x;
  }

  lemma ScaleTwelve(x: int)
    ensures Scale(x, 12) == 1_000_000_000_000 * x
  {
    ScaleOf(x, 4);
    ScaleScale(x, 4, 4);
    ScaleOf(Scale(x, 4), 4);
    ScaleScale(x, 8, 4);
    ScaleOf(Scale(x, 8), 4);
  }
}

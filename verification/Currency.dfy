/**
 Amounts with three decimals, printed with two (src/libgrace/currency.cpp).
 */
module Amounts {
  import opened Numbers

  const PRESENTATION := 24

  function Abs(n: int): nat {
    if n < 0 then -n else n
  }

  /** No overflow in the rounding. */
  predicate InRange(v: int) {
    Abs(v) + 5 <= LONG_MAX
  }

  /** The division of C, which rounds towards zero. */
  function TDiv(a: int, b: int): int
    requires b != 0
  {
    if (a < 0) == (b < 0) then Abs(a) / Abs(b) else -(Abs(a) / Abs(b))
  }

  /** Rounded to hundredths, a half away from zero. */
  function Rounded(v: int): int {
    if v < 0 then -(10 * ((Abs(v) + 5) / 10)) else 10 * ((v + 5) / 10)
  }

  function TwoDigits(n: nat): string
    requires n < 100
  {
    [DigitOf(n / 10), DigitOf(n % 10)]
  }

  /** printcurrency, and str: the sign is that of the whole part. */
  function Printed(v: int): string {
    var rounded := Abs(v) + 5;
    Signed(if v < 0 then -(rounded / 1000) else rounded / 1000) + "." + TwoDigits(rounded % 1000 / 10)
  }

  /** The place of the point, if only digits and blanks are before it; else how the scan ends:
      at the end of the text, or at another character. */
  datatype Scan = Point(at: nat) | End | Other

  function Scanned(s: string, at: nat): (r: Scan)
    requires at <= |s|
    ensures r.Point? ==> at <= r.at < |s| && s[r.at] == '.'
    decreases |s| - at
  {
    if at == |s| then End
    else if s[at] == '.' then Point(at)
    else if Digit(s[at]) < 10 || IsSpace(s[at]) then Scanned(s, at + 1)
    else Other
  }

  /** The two characters after the point, with zeros for those that are missing. */
  function Fraction(s: string): (r: string)
    ensures |r| == 2
  {
    [if |s| > 0 then s[0] else '0', if |s| > 1 then s[1] else '0']
  }

  function Parsed(s: string): int {
    match Scanned(s, 0)
    case End => 1000 * StrToL(s, 10)
    case Other => 0
    case Point(at) => 1000 * StrToL(s, 10) + 10 * StrToL(Fraction(s[at + 1..]), 10)
  }

  lemma {:induction false} ScanPasses(digits: string, after: string, at: nat)
    requires (forall c <- digits :: Digit(c) < 10) && at <= |digits|
    ensures Scanned(digits + "." + after, at) == Point(|digits|)
    decreases |digits| - at
  {
    var s := digits + "." + after;
    if at < |digits| {
      assert s[at] == digits[at] && digits[at] in digits;
      ScanPasses(digits, after, at + 1);
    }
  }

  lemma TwoDigitsAreRead(n: nat)
    requires n < 100
    ensures StrToL(TwoDigits(n), 10) == n
  {
    var s := TwoDigits(n);
    assert s[..1] == [DigitOf(n / 10)] && s[..1][..0] == "" && Value("", 10) == 0;
    assert s + "" == s;
    DigitsAreRead(s, "", 10);
  }

  lemma {:induction false} PrintedIsParsed(whole: nat, cents: nat)
    requires whole <= LONG_MAX && cents < 100
    ensures Parsed(Dec(whole) + "." + TwoDigits(cents)) == 1000 * whole + 10 * cents
  {
    var s := Dec(whole) + "." + TwoDigits(cents);
    ScanPasses(Dec(whole), TwoDigits(cents), 0);
    assert s == Dec(whole) + ("." + TwoDigits(cents));
    DecIsValue(whole);
    DigitsAreRead(Dec(whole), "." + TwoDigits(cents), 10);
    assert Fraction(s[|Dec(whole)| + 1..]) == TwoDigits(cents);
    TwoDigitsAreRead(cents);
  }

  lemma RoundingInParts(n: nat)
    ensures 1000 * (n / 1000) + 10 * (n % 1000 / 10) == 10 * (n / 10)
  {
  }

  lemma PrintedIsRead(v: int)
    ensures InRange(v) ==> Parsed(Printed(v)) == if v >= 0 || Abs(v) + 5 < 1000 then 10 * ((Abs(v) + 5) / 10) else 0
  {
    hide Parsed, TwoDigits;
    var n := Abs(v) + 5;
    RoundingInParts(n);
    if InRange(v) {
      if v >= 0 || n < 1000 {
        PrintedIsParsed(n / 1000, n % 1000 / 10);
      } else {
        MinusIsNotRead(n / 1000, TwoDigits(n % 1000 / 10));
      }
    }
  }

  /** Printing an amount and reading it again gives the amount rounded to hundredths, exactly
      when it is more than -5: the sign of a smaller one is lost, or not understood. */
  lemma PrintThenParse(v: int)
    requires InRange(v)
    ensures Parsed(Printed(v)) == Rounded(v) <==> v > -5
    ensures v >= 0 ==> Parsed(Printed(v)) == 10 * ((v + 5) / 10)
    ensures v < 0 ==> Parsed(Printed(v)) == if Abs(v) + 5 < 1000 then -Rounded(v) else 0
  {
    PrintedIsRead(v);
    hide Parsed, Printed;
  }

  lemma {:induction false} MinusIsNotRead(whole: nat, cents: string)
    ensures Parsed("-" + Dec(whole) + "." + cents) == 0
  {
    var s := "-" + Dec(whole) + "." + cents;
    assert s[0] == '-';
    assert Scanned(s, 0) == Other;
  }

  lemma {:induction false} ScanEnds(digits: string, at: nat)
    requires (forall c <- digits :: Digit(c) < 10) && at <= |digits|
    ensures Scanned(digits, at) == End
    decreases |digits| - at
  {
    if at < |digits| {
      assert digits[at] in digits && Digit('.') == 16;
      ScanEnds(digits, at + 1);
    }
  }

  lemma OneOrTwoDigits(a: char, b: char)
    requires Digit(a) < 10 && Digit(b) < 10
    ensures StrToL([a, b], 10) == 10 * Digit(a) + Digit(b)
  {
    var s := [a, b];
    assert s[..1] == [a] && s[..1][..0] == "" && Value("", 10) == 0 && Value([a], 10) == Digit(a);
    assert s + "" == s;
    DigitsAreRead(s, "", 10);
  }

  /** Digits without a point are whole; up to two digits after a point are tenths and
      hundredths, and what comes after them does not count. */
  lemma {:induction false} DigitsAreParsed(digits: string, a: char, b: char, more: string)
    requires digits != "" && AllDigits(digits, 10) && Value(digits, 10) <= LONG_MAX && Digit(a) < 10 && Digit(b) < 10
    ensures Parsed(digits) == Parsed(digits + ".") == 1000 * Value(digits, 10)
    ensures Parsed(digits + "." + [a]) == 1000 * Value(digits, 10) + 100 * Digit(a)
    ensures Parsed(digits + "." + [a, b] + more) == 1000 * Value(digits, 10) + 100 * Digit(a) + 10 * Digit(b)
  {
    ScanEnds(digits, 0);
    DigitsAreRead(digits, "", 10);
    assert digits + "" == digits;
    AfterPoint(digits, "");
    AfterPoint(digits, [a]);
    AfterPoint(digits, [a, b] + more);
    assert digits + "." + "" == digits + "." && digits + "." + ([a, b] + more) == digits + "." + [a, b] + more;
    assert Digit('0') == 0;
    OneOrTwoDigits('0', '0');
    OneOrTwoDigits(a, '0');
    OneOrTwoDigits(a, b);
    assert Fraction("") == ['0', '0'] && Fraction([a]) == [a, '0'] && Fraction([a, b] + more) == [a, b];
  }

  lemma {:induction false} AfterPoint(digits: string, after: string)
    requires digits != "" && AllDigits(digits, 10) && Value(digits, 10) <= LONG_MAX
    ensures Parsed(digits + "." + after) == 1000 * Value(digits, 10) + 10 * StrToL(Fraction(after), 10)
  {
    var s := digits + "." + after;
    ScanPasses(digits, after, 0);
    assert s == digits + ("." + after) && s[|digits| + 1..] == after;
    DigitsAreRead(digits, "." + after, 10);
  }

  /** Any character but a digit, a blank or a point, before a point, makes it nothing. */
  lemma {:induction false} OthersAreNotParsed(before: string, c: char, after: string, at: nat)
    requires (forall d <- before :: Digit(d) < 10 || IsSpace(d)) && c != '.' && Digit(c) >= 10 && !IsSpace(c) && at <= |before|
    ensures Scanned(before + [c] + after, at) == Other
    ensures at == 0 ==> Parsed(before + [c] + after) == 0
    decreases |before| - at
  {
    var s := before + [c] + after;
    if at < |before| {
      assert s[at] == before[at] && before[at] in before && Digit('.') == 16;
      OthersAreNotParsed(before, c, after, at + 1);
    }
  }

  /** The rounding is to the nearest hundredth, leaves hundredths alone, and keeps the order. */
  lemma RoundingIsClose(v: int, w: int)
    ensures -5 <= Rounded(v) - v <= 5 && Rounded(v) % 10 == 0
    ensures v % 10 == 0 ==> Rounded(v) == v
    ensures v <= w ==> Rounded(v) <= Rounded(w)
    ensures Rounded(-v) == -Rounded(v)
  {
  }

  /** The text of any amount, with the zero byte at its end, fits the array it is printed to. */
  lemma PrintedFits(v: int)
    requires InRange(v)
    ensures |Printed(v)| + 1 <= PRESENTATION
  {
    var whole := (Abs(v) + 5) / 1000;
    assert Pow10(16) == 10_000_000_000_000_000 by {
      assert Pow10(8) == 100_000_000;
      assert Pow10(16) == 100_000_000 * Pow10(8);
    }
    DecIsShort(whole, 16);
  }

  /** a in hundredths of b, times b, as operators / and * compute them: what is lost. */
  lemma DivideThenMultiply(a: int, b: int)
    requires b != 0
    ensures var r := TDiv(TDiv(a * 1000, b) * b, 1000);
      && 0 <= Abs(a) - Abs(r) <= (Abs(b) + 998) / 1000
      && (r == 0 || (r < 0 <==> a < 0))
  {
    var x, y := Abs(a), Abs(b);
    AbsOfProduct(a, 1000);
    var q := TDiv(a * 1000, b);
    AbsOfProduct(q, b);
    SignsCancel(a, b, q);
    assert Abs(q) == (x * 1000) / y;
    QuotientTimesDivisor(x * 1000, y);
    var m := x * 1000 % y;
    assert Abs(q * b) == x * 1000 - m;
    ThousandthsLost(x, m);
  }

  /** A quotient is the largest in size that does not go beyond the number, with the sign of it. */
  lemma QuotientIsClose(a: int, b: int)
    requires b != 0
    ensures Abs(TDiv(a, b)) * Abs(b) <= Abs(a) < (Abs(TDiv(a, b)) + 1) * Abs(b)
    ensures TDiv(a, b) == 0 || (TDiv(a, b) < 0 <==> (a < 0) != (b < 0))
  {
    var x, y := Abs(a), Abs(b);
    QuotientTimesDivisor(x, y);
    assert (x / y + 1) * y == (x / y) * y + y;
  }

  lemma AbsOfProduct(a: int, b: int)
    ensures Abs(a * b) == Abs(a) * Abs(b)
  {
  }

  lemma SignsCancel(a: int, b: int, q: int)
    requires b != 0 && q == TDiv(a * 1000, b)
    ensures q * b == 0 || (q * b < 0 <==> a < 0)
  {
  }

  lemma QuotientTimesDivisor(n: nat, d: nat)
    requires d > 0
    ensures (n / d) * d == n - n % d && 0 <= n % d < d
  {
  }

  lemma ThousandthsLost(x: nat, m: nat)
    requires m <= x * 1000
    ensures (x * 1000 - m) / 1000 == x - (m + 999) / 1000
  {
  }
}

/** The currency object and the two functions beside it. */
module Currencies {
  import opened Numbers
  import opened Amounts

  method PrintCurrency(into: string, val: int) returns (text: string)
    ensures text == into + Printed(val)
  {
    var absval := if val < 0 then -val else val;
    var cents := (absval + 5) % 1000 / 10;
    absval := (absval + 5) / 1000;
    if val < 0 { absval := -absval; }
    text := into + (Signed(absval) + "." + TwoDigits(cents));
  }

  method ParseCurrency(from: string) returns (val: int)
    ensures val == Parsed(from)
  {
    var crsr := 0;
    while crsr == |from| || from[crsr] != '.'
      invariant crsr <= |from| && Scanned(from, crsr) == Scanned(from, 0)
      decreases |from| - crsr
    {
      if crsr == |from| { return 1000 * StrToL(from, 10); }
      if !(Digit(from[crsr]) < 10 || IsSpace(from[crsr])) { return 0; }
      crsr := crsr + 1;
    }
    ghost var at := crsr;
    crsr := crsr + 1;
    var base := StrToL(from, 10);
    var decimal := "00";
    if crsr < |from| {
      decimal := decimal[0 := from[crsr]];
      crsr := crsr + 1;
      if crsr < |from| { decimal := decimal[1 := from[crsr]]; }
    }
    assert decimal == Fraction(from[at + 1..]);
    var fract := 10 * StrToL(decimal, 10);
    val := 1000 * base + fract;
  }

  class Currency {
    var val: int
    var presentation: array<char>

    ghost predicate Valid()
      reads this
    {
      presentation.Length == PRESENTATION
    }

    constructor (orig: int)
      ensures Valid() && val == orig && fresh(presentation)
    {
      val, presentation := orig, new char[PRESENTATION];
    }

    /** The operators that change the object come to what those do that return a number. */
    method Multiply(factor: int)
      modifies this`val
      ensures val == Times(old(val), factor)
    {
      val := val * factor;
      val := TDiv(val, 1000);
    }

    method Divide(divisor: int)
      requires divisor != 0
      modifies this`val
      ensures val == Over(old(val), divisor)
    {
      val := val * 1000;
      val := TDiv(val, divisor);
    }

    /** str: the text is in the array, up to a zero byte. */
    method Str() returns (length: nat)
      requires Valid() && InRange(val)
      modifies presentation
      ensures length < PRESENTATION && presentation[..length] == Printed(val) && presentation[length] == '\0'
    {
      PrintedFits(val);
      var text := PrintCurrency("", val);
      assert text == Printed(val);
      length := |text|;
      var i := 0;
      while i < length
        invariant i <= length && presentation[..i] == text[..i]
      {
        presentation[i] := text[i];
        i := i + 1;
      }
      presentation[length] := '\0';
    }
  }

  /** The const operators on two amounts. */
  function Times(a: int, b: int): int {
    TDiv(a * b, 1000)
  }

  function Over(a: int, b: int): int
    requires b != 0
  {
    TDiv(a * 1000, b)
  }

  /** In amounts of three decimals: a product is a thousandth of that of the numbers, a quotient a
      thousand times theirs, both rounded towards zero. */
  lemma OperatorsAreClose(a: int, b: int)
    ensures Abs(Times(a, b)) * 1000 <= Abs(a * b) < Abs(Times(a, b)) * 1000 + 1000
    ensures Times(a, b) == 0 || (Times(a, b) < 0 <==> a * b < 0)
    ensures b != 0 ==> Abs(Over(a, b)) * Abs(b) <= Abs(a) * 1000 < (Abs(Over(a, b)) + 1) * Abs(b)
    ensures b != 0 ==> Over(a, b) == 0 || (Over(a, b) < 0 <==> (a < 0) != (b < 0))
  {
    QuotientIsClose(a * b, 1000);
    if b != 0 {
      QuotientIsClose(a * 1000, b);
      AbsOfProduct(a, 1000);
    }
    hide TDiv;
  }

  /** Dividing an amount and multiplying it again, on the object. */
  method DivideAndMultiply(c: Currency, b: int)
    requires b != 0
    modifies c`val
    ensures 0 <= Abs(old(c.val)) - Abs(c.val) <= (Abs(b) + 998) / 1000
    ensures c.val == Times(Over(old(c.val), b), b)
  {
    DivideThenMultiply(c.val, b);
    c.Divide(b);
    c.Multiply(b);
  }
}

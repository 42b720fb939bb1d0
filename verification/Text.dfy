/**
 Operations of the string and strutil classes that the other modules build on.
 */
module Text {
  /** Keys of a value object are compared without regard to case. */
  function Fold(s: string): string {
    seq(|s|, i requires 0 <= i < |s| => if 'A' <= s[i] <= 'Z' then s[i] - 'A' + 'a' else s[i])
  }

  predicate SameLetter(a: char, b: char) {
    a == b || ('A' <= a <= 'Z' && b as int == a as int + 32) || ('A' <= b <= 'Z' && a as int == b as int + 32)
  }

  /** Two keys are one when they differ in the case of letters only. */
  lemma FoldMeets(s: string, t: string)
    ensures Fold(s) == Fold(t) <==> |s| == |t| && forall i :: 0 <= i < |s| ==> SameLetter(s[i], t[i])
  {
    if Fold(s) == Fold(t) {
      assert |Fold(s)| == |Fold(t)|;
      forall i | 0 <= i < |s| ensures SameLetter(s[i], t[i]) {
        assert Fold(s)[i] == Fold(t)[i];
      }
    }
  }

  /** Index of the first c in s, or |s|. */
  function IndexOf(s: string, c: char): (i: nat)
    ensures i <= |s| && (i < |s| ==> s[i] == c) && c !in s[..i]
  {
    if s == "" || s[0] == c then 0
    else
      var i := 1 + IndexOf(s[1..], c);
      assert s[..i] == [s[0]] + s[1..][..i - 1];
      i
  }

  /** string::cutat: the part before the first c, and what is left. Without a c the first
      part is empty and everything is left. */
  function CutAt(s: string, c: char): (string, string) {
    var i := IndexOf(s, c);
    if i < |s| then (s[..i], s[i + 1..]) else ("", s)
  }

  /** strutil::split on one character. */
  function Split(s: string, c: char): (parts: seq<string>)
    ensures parts != [] && forall p <- parts :: c !in p
  {
    var i := IndexOf(s, c);
    if i == |s| then
      assert s == s[..i];
      [s]
    else [s[..i]] + Split(s[i + 1..], c)
  }

  function Join(parts: seq<string>, c: char): string
    requires parts != []
  {
    if |parts| == 1 then parts[0] else parts[0] + [c] + Join(parts[1..], c)
  }

  lemma {:induction false} FirstIndex(p: string, c: char, rest: string)
    requires c !in p
    ensures IndexOf(p + [c] + rest, c) == |p|
    ensures IndexOf(p, c) == |p|
  {
    var s := p + [c] + rest;
    if p != "" {
      assert s[1..] == p[1..] + [c] + rest;
      FirstIndex(p[1..], c, rest);
    }
  }

  /** Splitting undoes joining. */
  lemma {:induction false} SplitJoin(parts: seq<string>, c: char)
    requires parts != [] && forall p <- parts :: c !in p
    ensures Split(Join(parts, c), c) == parts
  {
    FirstIndex(parts[0], c, if |parts| == 1 then "" else Join(parts[1..], c));
    if |parts| > 1 {
      SplitJoin(parts[1..], c);
      var s := Join(parts, c);
      assert s[..|parts[0]|] == parts[0] && s[|parts[0]| + 1..] == Join(parts[1..], c);
    } else {
      assert parts == [parts[0]];
    }
  }
}

/** Numbers in text, as strtol and strtoll read them. */
module Numbers {
  /** The largest number of 64 bits with a sign. */
  const LONG_MAX := 0x7fff_ffff_ffff_ffff

  /** isspace */
  predicate IsSpace(c: char) {
    c == ' ' || '\t' <= c <= '\r'
  }

  function SkipSpace(s: string): string {
    if s != "" && IsSpace(s[0]) then SkipSpace(s[1..]) else s
  }

  /** The value of a digit in any base up to 16; 16 for other characters. */
  function Digit(c: char): (d: nat)
    ensures d <= 16
  {
    if '0' <= c <= '9' then c as int - '0' as int
    else if 'a' <= c <= 'f' then c as int - 'a' as int + 10
    else if 'A' <= c <= 'F' then c as int - 'A' as int + 10
    else 16
  }

  predicate AllDigits(s: string, base: nat) {
    forall c <- s :: Digit(c) < base
  }

  /** The number that the digits of s make. */
  function Value(s: string, base: nat): nat {
    if s == "" then 0 else base * Value(s[..|s| - 1], base) + Digit(s[|s| - 1])
  }

  /** The leading digits of s, after some that made n. */
  function Leading(s: string, base: nat, n: nat): nat {
    if s == "" || Digit(s[0]) >= base then n else Leading(s[1..], base, base * n + Digit(s[0]))
  }

  function Clamp(n: int): int {
    if n > LONG_MAX then LONG_MAX else if n < -1 - LONG_MAX then -1 - LONG_MAX else n
  }

  function SkipPrefix(s: string): string {
    if |s| > 2 && s[0] == '0' && (s[1] == 'x' || s[1] == 'X') && Digit(s[2]) < 16 then s[2..] else s
  }

  /** strtol and strtoll: blanks, a sign, and in base 16 a prefix 0x are allowed; what follows
      the digits does not matter. */
  function StrToL(s: string, base: nat): int {
    var t := SkipSpace(s);
    var u := if t != "" && (t[0] == '-' || t[0] == '+') then t[1..] else t;
    var n := Leading(if base == 16 then SkipPrefix(u) else u, base, 0);
    Clamp(if t != "" && t[0] == '-' then 0 - n else n)
  }

  lemma {:induction false} LeadingIsValue(done: string, digits: string, after: string, base: nat)
    requires AllDigits(digits, base) && (after == "" || Digit(after[0]) >= base)
    ensures Leading(digits + after, base, Value(done, base)) == Value(done + digits, base)
    decreases |digits|
  {
    if digits == "" {
      assert digits + after == after && done + digits == done;
    } else {
      var more := done + [digits[0]];
      assert more[..|done|] == done && done + digits == more + digits[1..];
      assert (digits + after)[1..] == digits[1..] + after;
      assert digits[0] in digits;
      LeadingIsValue(more, digits[1..], after, base);
    }
  }

  lemma {:induction false} NothingIsSkipped(s: string, base: nat)
    requires base <= 16 && s != "" && Digit(s[0]) < base && (|s| > 1 ==> s[1] != 'x' && s[1] != 'X')
    ensures SkipSpace(s) == s && s[0] != '-' && s[0] != '+' && SkipPrefix(s) == s
  {
  }

  /** Digits in any spelling, with anything behind them that is no digit, are read as their
      number. */
  lemma {:induction false} DigitsAreRead(digits: string, after: string, base: nat)
    requires base <= 16 && digits != "" && AllDigits(digits, base) && Value(digits, base) <= LONG_MAX
    requires after == "" || (Digit(after[0]) >= base && after[0] != 'x' && after[0] != 'X')
    ensures StrToL(digits + after, base) == Value(digits, base)
  {
    var s := digits + after;
    assert s[0] == digits[0] && s[0] in digits;
    if |digits| > 1 { assert s[1] == digits[1] && digits[1] in digits; }
    assert Digit('x') == 16 && Digit('X') == 16;
    NothingIsSkipped(s, base);
    assert "" + digits == digits && Value("", base) == 0;
    LeadingIsValue("", digits, after, base);
    hide Digit, SkipPrefix, AllDigits;
  }

  /** The sixteen digits, in either case, and no others. */
  lemma DigitIsPlace(i: nat, c: char)
    requires i < 16
    ensures Digit("0123456789abcdef"[i]) == i && Digit("0123456789ABCDEF"[i]) == i
    ensures c !in "0123456789abcdef" && c !in "0123456789ABCDEF" ==> Digit(c) == 16
  {
    var low, high := "0123456789abcdef", "0123456789ABCDEF";
    if '0' <= c <= '9' { assert low[c as int - '0' as int] == c; }
    if 'a' <= c <= 'f' { assert low[c as int - 'a' as int + 10] == c; }
    if 'A' <= c <= 'F' { assert high[c as int - 'A' as int + 10] == c; }
  }

  lemma {:induction false} SpaceIsSkipped(blanks: string, s: string)
    requires (forall c <- blanks :: IsSpace(c)) && (s != "" ==> !IsSpace(s[0]))
    ensures SkipSpace(blanks + s) == s
  {
    if blanks == "" {
      assert blanks + s == s;
    } else {
      assert (blanks + s)[1..] == blanks[1..] + s && blanks[0] in blanks;
      assert forall c <- blanks[1..] :: c in blanks;
      SpaceIsSkipped(blanks[1..], s);
    }
  }

  lemma PrefixIsSkipped(prefix: string, digits: string, after: string)
    requires prefix == "" || prefix == "0x" || prefix == "0X"
    requires digits != "" && AllDigits(digits, 16) && (after == "" || (after[0] != 'x' && after[0] != 'X'))
    ensures SkipPrefix(prefix + (digits + after)) == digits + after
  {
    var s := prefix + (digits + after);
    assert (digits + after)[0] == digits[0] && digits[0] in digits && Digit('x') == 16 && Digit('X') == 16;
    if prefix == "" {
      assert s == digits + after;
      if |digits| > 1 { assert s[1] == digits[1] && digits[1] in digits; }
    } else {
      assert s[2..] == digits + after && s[2] == digits[0];
    }
  }

  /** All that strtol understands: blanks, a sign, in base 16 a prefix, and digits; a number that
      is too large is the largest of its sign. */
  lemma {:induction false} NumbersAreRead(blanks: string, sign: string, prefix: string, digits: string, after: string, base: nat)
    requires (forall c <- blanks :: IsSpace(c)) && (sign == "" || sign == "-" || sign == "+")
    requires (base == 10 && prefix == "") || (base == 16 && (prefix == "" || prefix == "0x" || prefix == "0X"))
    requires digits != "" && AllDigits(digits, base)
    requires after == "" || (Digit(after[0]) >= base && after[0] != 'x' && after[0] != 'X')
    ensures var v := Value(digits, base);
      StrToL(blanks + (sign + (prefix + (digits + after))), base) ==
        if sign == "-" then (if v > LONG_MAX + 1 then -LONG_MAX - 1 else 0 - v) else if v > LONG_MAX then LONG_MAX else v
  {
    var number := prefix + (digits + after);
    var s := sign + number;
    assert digits[0] in digits && (digits + after)[0] == digits[0];
    assert number[0] == if prefix == "" then digits[0] else '0';
    assert sign == "" ==> s == number;
    assert sign != "" ==> s[1..] == number && s[0] == sign[0];
    StartsPlain(number[0], base);
    SpaceIsSkipped(blanks, s);
    PrefixIsSkipped(prefix, digits, after);
    assert "" + digits == digits && Value("", base) == 0;
    LeadingIsValue("", digits, after, base);
    hide Digit, SkipPrefix, AllDigits, IsSpace;
  }

  lemma StartsPlain(c: char, base: nat)
    requires base <= 16 && Digit(c) < base
    ensures !IsSpace(c) && c != '-' && c != '+' && !IsSpace('-') && !IsSpace('+')
  {
  }

  /** A number without sign, in as many decimal digits as it takes. */
  function Dec(n: nat): (s: string)
    ensures s != "" && AllDigits(s, 10) && forall c <- s :: '0' <= c <= '9'
  {
    if n < 10 then [DigitOf(n)] else Dec(n / 10) + [DigitOf(n % 10)]
  }

  function DigitOf(n: nat): (c: char)
    requires n < 10
    ensures '0' <= c <= '9' && Digit(c) == n
  {
    ('0' as int + n) as char
  }

  function Signed(n: int): string {
    if n < 0 then "-" + Dec(-n) else Dec(n)
  }

  lemma {:induction false} DecIsValue(n: nat)
    ensures Value(Dec(n), 10) == n
  {
    if n >= 10 {
      DecIsValue(n / 10);
      var s := Dec(n);
      assert s[..|s| - 1] == Dec(n / 10);
    } else {
      assert Dec(n)[..0] == "" && Value("", 10) == 0;
    }
  }

  function Pow10(k: nat): nat {
    if k == 0 then 1 else 10 * Pow10(k - 1)
  }

  lemma {:induction false} DecIsShort(n: nat, k: nat)
    requires k > 0 && n < Pow10(k)
    ensures |Dec(n)| <= k
  {
    if n >= 10 {
      assert Pow10(1) == 10 * Pow10(0);
      DecIsShort(n / 10, k - 1);
    }
  }
}

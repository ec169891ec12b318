/** `fill_numbuf` (lib.c:112-128): numbers as digits, and back. */
module Numbers {
  const NUMBUFSIZ := 24

  function UpperDigits(): string {
    "0123456789ABCDEF"
  }

  function LowerDigits(): string {
    "0123456789abcdef"
  }

  /** A base is 10, 16, or -16 for lower-case hexadecimal. */
  predicate IsBase(base: int) {
    base == 10 || base == 16 || base == -16
  }

  function Radix(base: int): nat {
    if base < 0 then -base else base
  }

  function DigitChar(base: int, d: nat): char
    requires d < 16
  {
    if base < 0 then LowerDigits()[d] else UpperDigits()[d]
  }

  /** The value of a digit character in either case; 16 for anything else. */
  function DigitValue(c: char): (d: nat)
  {
    if '0' <= c <= '9' then c as int - '0' as int
    else if 'A' <= c <= 'F' then c as int - 'A' as int + 10
    else if 'a' <= c <= 'f' then c as int - 'a' as int + 10
    else 16
  }

  /** Reading digits back, most significant first. */
  function ReadDigits(s: string, radix: nat): nat {
    if s == "" then 0 else ReadDigits(s[..|s| - 1], radix) * radix + DigitValue(s[|s| - 1])
  }

  /** The digits of `val`, most significant first. */
  function Digits(val: nat, base: int): (s: string)
    requires IsBase(base)
    ensures |s| > 0
    decreases val
  {
    var d := [DigitChar(base, val % Radix(base))];
    if val < Radix(base) then d else Digits(val / Radix(base), base) + d
  }

  lemma DigitRoundTrip(base: int, d: nat)
    requires d < 16
    ensures DigitValue(DigitChar(base, d)) == d && DigitChar(base, d) != '\0'
    ensures DigitChar(base, d) == '0' <==> d == 0
  {
  }

  /** Reading the digits of a number in its base gives the number. */
  lemma {:induction false} DigitsRoundTrip(val: nat, base: int)
    requires IsBase(base)
    ensures ReadDigits(Digits(val, base), Radix(base)) == val
    decreases val
  {
    hide ReadDigits, DigitValue, DigitChar;
    var r := Radix(base);
    var c := DigitChar(base, val % r);
    DigitRoundTrip(base, val % r);
    if val >= r {
      DigitsRoundTrip(val / r, base);
      ReadLast(Digits(val / r, base), c, r);
      Recombine(val, r);
    } else {
      ReadNothing(r);
      ReadLast("", c, r);
      assert "" + [c] == [c];
    }
  }

  lemma Recombine(val: nat, r: nat)
    requires r > 0
    ensures val / r * r + val % r == val
  {
  }

  lemma ReadNothing(radix: nat)
    ensures ReadDigits("", radix) == 0
  {
  }

  lemma ReadLast(s: string, c: char, radix: nat)
    ensures ReadDigits(s + [c], radix) == ReadDigits(s, radix) * radix + DigitValue(c)
  {
    assert (s + [c])[..|s|] == s;
  }

  /** No leading zero, except for the number 0 itself. */
  lemma {:induction false} NoLeadingZero(val: nat, base: int)
    requires IsBase(base)
    ensures Digits(val, base)[0] == '0' <==> val == 0
    ensures val == 0 ==> Digits(val, base) == "0"
    ensures forall i :: 0 <= i < |Digits(val, base)| ==>
              DigitValue(Digits(val, base)[i]) < Radix(base) && Digits(val, base)[i] != '\0'
    decreases val
  {
    DigitRoundTrip(base, val % Radix(base));
    if val >= Radix(base) {
      NoLeadingZero(val / Radix(base), base);
    }
  }

  function Pow(b: nat, n: nat): nat {
    if n == 0 then 1 else b * Pow(b, n - 1)
  }

  /** A number below radix^n has at most n digits. */
  lemma {:induction false} DigitsBound(val: nat, base: int, n: nat)
    requires IsBase(base) && n > 0 && val < Pow(Radix(base), n)
    ensures |Digits(val, base)| <= n
    decreases n
  {
    if val >= Radix(base) {
      assert Pow(Radix(base), n) == Radix(base) * Pow(Radix(base), n - 1);
      assert n > 1;
      assert val / Radix(base) < Pow(Radix(base), n - 1) by { DivBound(val, Radix(base), Pow(Radix(base), n - 1)); }
      DigitsBound(val / Radix(base), base, n - 1);
    }
  }

  lemma DivBound(val: nat, d: nat, p: nat)
    requires d > 0 && val < d * p
    ensures val / d < p
  {
    assert val / d * d <= val;
    assert (val / d - p) * d < 0;
  }

  /** Every 64-bit value fits: at most 20 digits, and the terminating NUL. */
  lemma DigitsFit(val: nat, base: int)
    requires IsBase(base) && val < 0x1_0000_0000_0000_0000
    ensures |Digits(val, base)| <= 20
  {
    if base == 10 {
      assert Pow(10, 5) == 100000;
      assert Pow(10, 10) == 100000 * Pow(10, 5);
      assert Pow(10, 15) == 100000 * Pow(10, 10);
      assert Pow(10, 20) == 100000 * Pow(10, 15);
      DigitsBound(val, base, 20);
    } else {
      assert Pow(16, 4) == 65536;
      assert Pow(16, 8) == 65536 * Pow(16, 4);
      assert Pow(16, 12) == 65536 * Pow(16, 8);
      assert Pow(16, 16) == 65536 * Pow(16, 12);
      DigitsBound(val, base, 16);
    }
  }

  /** Leading zeros do not change the value read back. */
  lemma {:induction false} LeadingZeros(n: nat, s: string, radix: nat)
    ensures ReadDigits(seq(n, _ => '0') + s, radix) == ReadDigits(s, radix)
    decreases n + |s|
  {
    var z := seq(n, _ => '0');
    var w := z + s;
    if s != "" {
      assert w[..|w| - 1] == z + s[..|s| - 1];
      LeadingZeros(n, s[..|s| - 1], radix);
    } else if n > 0 {
      assert w[..|w| - 1] == seq(n - 1, _ => '0') + "";
      LeadingZeros(n - 1, "", radix);
    } else {
      assert w == "";
    }
  }

  /** The digits still to come when `rest` is what is left of the value. */
  function DigitsLeft(rest: nat, base: int): string
    requires IsBase(base)
  {
    if rest == 0 then "" else Digits(rest, base)
  }

  lemma TakeDigit(rest: nat, base: int)
    requires IsBase(base)
    ensures 0 <= rest % Radix(base) < Radix(base) <= 16
    ensures Digits(rest, base) == DigitsLeft(rest / Radix(base), base) + [DigitChar(base, rest % Radix(base))]
    ensures rest != 0 ==> rest / Radix(base) < rest
  {
    if rest < Radix(base) {
      assert rest / Radix(base) == 0;
    } else {
      assert rest / Radix(base) > 0;
    }
  }

  lemma ShorterTail(a: string, b: string, all: string)
    requires a + b == all && |all| <= 20 && |a| > 0
    ensures |b| < 20
  {
  }

  lemma OneMore(a: string, c: char, b: string)
    ensures a + [c] + b == a + ([c] + b)
  {
  }

  /** The last digit of a number, and the number without it. */
  method LastDigit(val: nat, base: int) returns (c: char, rest: nat)
    requires IsBase(base)
    ensures Digits(val, base) == DigitsLeft(rest, base) + [c] && (val != 0 ==> rest < val)
  {
    hide Digits, DigitsLeft;
    TakeDigit(val, base);
    c := DigitChar(base, val % Radix(base));
    rest := val / Radix(base);
  }

  /** fill_numbuf: the digits end at the NUL in the last cell and nothing before
      them is written. */
  method FillNumbuf(numbuf: array<char>, val: nat, base: int) returns (start: nat)
    requires numbuf.Length == NUMBUFSIZ && IsBase(base) && val < 0x1_0000_0000_0000_0000
    modifies numbuf
    ensures 3 <= start < 23 && numbuf[start..23] == Digits(val, base) && numbuf[23] == '\0'
    ensures numbuf[..start] == old(numbuf[..start])
  {
    hide Digits, DigitsLeft;
    DigitsFit(val, base);
    start := 23;
    numbuf[start] := '\0';
    var c, rest := LastDigit(val, base);
    start := start - 1;
    numbuf[start] := c;
    assert numbuf[start..23] == [c];
    while rest != 0
      invariant 3 <= start < 23 && numbuf[23] == '\0'
      invariant DigitsLeft(rest, base) + numbuf[start..23] == Digits(val, base)
      invariant numbuf[..start] == old(numbuf[..start])
      decreases rest
    {
      ghost var done := numbuf[start..23];
      LeftNonempty(rest, base);
      ShorterTail(DigitsLeft(rest, base), done, Digits(val, base));
      c, rest := LastDigit(rest, base);
      OneMore(DigitsLeft(rest, base), c, done);
      start := start - 1;
      numbuf[start] := c;
      assert numbuf[start..23] == [c] + done;
    }
    LeftNone(base);
  }

  lemma LeftNonempty(rest: nat, base: int)
    requires IsBase(base) && rest != 0
    ensures DigitsLeft(rest, base) == Digits(rest, base) && |Digits(rest, base)| > 0
  {
  }

  lemma LeftNone(base: int)
    requires IsBase(base)
    ensures DigitsLeft(0, base) == ""
  {
  }
}

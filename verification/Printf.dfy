/** `printer_vprintf`, `string_putc` and `vsnprintf` (lib.c:130-368): the format
    interpreter and its bounded string sink. */
module Printf {
  import opened Numbers
  import X86

  /** A C string: the characters before its NUL. */
  type CString = s: string | '\0' !in s witness ""

  /** A variadic argument: an integer or pointer of any width, or a string. */
  datatype Arg = Num(n: int) | Str(s: CString)

  /** One call of the printer's `putc`. */
  datatype Put = Put(c: char, color: int)

  datatype Option<+T> = None | Some(value: T)

  /** The character at position `i`; position |f| holds the NUL. */
  function At(f: CString, i: nat): (c: char)
    requires i <= |f|
    ensures c == '\0' <==> i == |f|
  {
    if i < |f| then f[i] else '\0'
  }

  // -------------------------------------------------------------- flag parsing

  datatype Flags = Flags(alt: bool, zero: bool, left: bool, space: bool, plus: bool)

  const NO_FLAGS := Flags(false, false, false, false, false)

  predicate IsFlag(c: char) {
    c == '#' || c == '0' || c == '-' || c == ' ' || c == '+'
  }

  function SetFlag(fl: Flags, c: char): Flags {
    match c
    case '#' => fl.(alt := true)
    case '0' => fl.(zero := true)
    case '-' => fl.(left := true)
    case ' ' => fl.(space := true)
    case _ => fl.(plus := true)
  }

  function ScanFlags(f: CString, i: nat, fl: Flags): (r: (nat, Flags))
    requires i <= |f|
    ensures i <= r.0 <= |f|
    decreases |f| - i
  {
    if i < |f| && IsFlag(f[i]) then ScanFlags(f, i + 1, SetFlag(fl, f[i])) else (i, fl)
  }

  predicate IsDigit(c: char) {
    '0' <= c <= '9'
  }

  function ScanNumber(f: CString, i: nat, n: nat): (r: (nat, nat))
    requires i <= |f|
    ensures i <= r.0 <= |f|
    decreases |f| - i
  {
    if i < |f| && IsDigit(f[i]) then ScanNumber(f, i + 1, 10 * n + (f[i] as int - '0' as int)) else (i, n)
  }

  /** `l` and `z` both select the long form. */
  function ScanLength(f: CString, i: nat, long: bool): (r: (nat, bool))
    requires i <= |f|
    ensures i <= r.0 <= |f|
    decreases |f| - i
  {
    if i < |f| && (f[i] == 'l' || f[i] == 'z') then ScanLength(f, i + 1, true) else (i, long)
  }

  // ------------------------------------------------------------------ arguments

  function Wrap(n: int, m: int): (r: int)
    requires m > 0
    ensures 0 <= r < m
  {
    n % m
  }

  /** `va_arg` as a signed type of `m` values. */
  function Signed(n: int, m: int): int
    requires m > 0 && m % 2 == 0
  {
    var u := Wrap(n, m);
    if u >= m / 2 then u - m else u
  }

  const INT := 0x1_0000_0000
  const LONG := 0x1_0000_0000_0000_0000

  /** A width or precision that may be `*`, taken from the arguments. */
  datatype Field = Field(i: nat, args: seq<Arg>, n: int)

  predicate HasNum(args: seq<Arg>) {
    args != [] && args[0].Num?
  }

  /** lib.c:163-172. */
  function ScanWidth(f: CString, i: nat, args: seq<Arg>): (r: Option<Field>)
    requires i <= |f|
    ensures r.Some? ==> i <= r.value.i <= |f|
  {
    if '1' <= At(f, i) <= '9' then
      var (j, n) := ScanNumber(f, i, 0);
      Some(Field(j, args, n))
    else if At(f, i) == '*' then
      if HasNum(args) then Some(Field(i + 1, args[1..], Signed(args[0].n, INT))) else None
    else
      Some(Field(i, args, -1))
  }

  /** lib.c:174-189; -1 when there is no `.`. */
  function ScanPrecision(f: CString, i: nat, args: seq<Arg>): (r: Option<Field>)
    requires i <= |f|
    ensures r.Some? ==> i <= r.value.i <= |f|
  {
    if At(f, i) != '.' then
      Some(Field(i, args, -1))
    else if IsDigit(At(f, i + 1)) then
      var (j, n) := ScanNumber(f, i + 1, 0);
      Some(Field(j, args, n))
    else if At(f, i + 1) == '*' then
      if HasNum(args) then
        var n := Signed(args[0].n, INT);
        Some(Field(i + 2, args[1..], if n < 0 then 0 else n))
      else None
    else
      Some(Field(i + 1, args, 0))
  }

  // ---------------------------------------------------------------- conversions

  /** What a conversion prints, before padding. */
  datatype Item = Item(prefix: string, data: CString, numeric: bool)

  /** How far the scan gets and what it prints; `recolor` changes the color. */
  datatype Conversion = Print(item: Item, args: seq<Arg>) | Recolor(color: int, args: seq<Arg>)

  function SignPrefix(fl: Flags, negative: bool): string {
    if negative then "-" else if fl.plus then "+" else if fl.space then " " else ""
  }

  function HexPrefix(fl: Flags, base: int, num: nat, always: bool): string {
    if (fl.alt || always) && (base == 16 || base == -16) && (num != 0 || always) then
      (if base == -16 then "0x" else "0X")
    else ""
  }

  function NumberData(num: nat, base: int): (s: CString)
    requires IsBase(base)
    ensures s == Digits(num, base)
  {
    NoLeadingZero(num, base);
    Digits(num, base)
  }

  function SignedItem(fl: Flags, x: int): Item {
    Item(SignPrefix(fl, x < 0), NumberData(if x < 0 then -x else x, 10), true)
  }

  function UnsignedItem(fl: Flags, num: nat, base: int, pointer: bool): Item
    requires IsBase(base)
  {
    Item(HexPrefix(fl, base, num, pointer), NumberData(num, base), true)
  }

  /** A one-character string; empty if the character is NUL. */
  function CharData(c: char): CString {
    if c == '\0' then "" else [c]
  }

  function ToChar(n: int): char {
    Wrap(n, 256) as char
  }

  function UnsignedBase(c: char): int {
    match c
    case 'u' => 10
    case 'x' => -16
    case _ => 16
  }

  /** The switch of lib.c:197-246 at character `c` (NUL at the end of the format). */
  function Convert(c: char, fl: Flags, long: bool, args: seq<Arg>): (r: Option<Conversion>)
  {
    match c
    case 'd' => ConvertSigned(fl, long, args)
    case 'i' => ConvertSigned(fl, long, args)
    case 'u' => ConvertUnsigned(c, fl, long, args)
    case 'x' => ConvertUnsigned(c, fl, long, args)
    case 'X' => ConvertUnsigned(c, fl, long, args)
    case 'p' => if HasNum(args) then Some(Print(UnsignedItem(fl, Wrap(args[0].n, LONG), -16, true), args[1..]))
        else None
    case 's' => if args != [] && args[0].Str? then Some(Print(Item("", args[0].s, false), args[1..])) else None
    case 'C' => if HasNum(args) then Some(Recolor(Signed(args[0].n, INT), args[1..])) else None
    case 'c' => if HasNum(args) then Some(Print(Item("", CharData(ToChar(args[0].n)), false), args[1..])) else None
    case _ => Some(Print(Item("", CharData(if c == '\0' then '%' else c), false), args))
  }

  function ConvertSigned(fl: Flags, long: bool, args: seq<Arg>): (r: Option<Conversion>)
  {
    if HasNum(args) then
      Some(Print(SignedItem(fl, Signed(args[0].n, if long then LONG else INT)), args[1..]))
    else None
  }

  function ConvertUnsigned(c: char, fl: Flags, long: bool, args: seq<Arg>): (r: Option<Conversion>)
  {
    if HasNum(args) then
      Some(Print(UnsignedItem(fl, Wrap(args[0].n, if long then LONG else INT), UnsignedBase(c), false), args[1..]))
    else None
  }

  // --------------------------------------------------------------------- layout

  function Repeat(n: int, c: char): string {
    if n <= 0 then "" else seq(n, _ => c)
  }

  /** lib.c:267-272. */
  function DataLength(item: Item, precision: int): (n: nat)
    ensures n <= |item.data|
  {
    if precision >= 0 && !item.numeric && precision < |item.data| then precision else |item.data|
  }

  /** lib.c:273-282. */
  function ZeroCount(item: Item, fl: Flags, width: int, precision: int): (n: nat)
  {
    var len := DataLength(item, precision);
    if item.numeric && precision >= 0 then
      (if precision > len then precision - len else 0)
    else if item.numeric && fl.zero && !fl.left && len + |item.prefix| < width then
      width - len - |item.prefix|
    else 0
  }

  /** lib.c:283-298. */
  function Layout(item: Item, fl: Flags, width: int, precision: int): string {
    var len, zeros := DataLength(item, precision), ZeroCount(item, fl, width, precision);
    var pad := width - (len + zeros + |item.prefix|);
    (if fl.left then "" else Repeat(pad, ' ')) + item.prefix + Repeat(zeros, '0') + item.data[..len]
      + (if fl.left then Repeat(pad, ' ') else "")
  }

  function Colored(s: string, color: int): seq<Put> {
    seq(|s|, i requires 0 <= i < |s| => Put(s[i], color))
  }

  // ------------------------------------------------------------ the interpreter

  /** One directive, `i` just after the `%`: what it prints and where the scan goes
      on. At the end of the format the scan stays on the NUL. */
  datatype Outcome = Outcome(i: nat, args: seq<Arg>, color: int, out: seq<Put>)

  function Directive(f: CString, i: nat, args: seq<Arg>, color: int): (r: Option<Outcome>)
    requires i <= |f|
    ensures r.Some? ==> i <= r.value.i <= |f|
  {
    var (i1, fl) := ScanFlags(f, i, NO_FLAGS);
    var w := ScanWidth(f, i1, args);
    if w.None? then None
    else
      var p := ScanPrecision(f, w.value.i, w.value.args);
      if p.None? then None
      else
        var (i2, long) := ScanLength(f, p.value.i, false);
        var conv := Convert(At(f, i2), fl, long, p.value.args);
        if conv.None? then None
        else
          var j := if i2 < |f| then i2 + 1 else i2;
          match conv.value
          case Recolor(c, rest) => Some(Outcome(j, rest, c, []))
          case Print(item, rest) =>
            Some(Outcome(j, rest, color, Colored(Layout(item, fl, w.value.n, p.value.n), color)))
  }

  /** Everything printed from position `i` on; None if an argument is missing or of
      the wrong kind, which C leaves undefined. */
  function Format(f: CString, i: nat, args: seq<Arg>, color: int): (r: Option<seq<Put>>)
    requires i <= |f|
    decreases |f| - i
  {
    if i == |f| then
      Some([])
    else if f[i] != '%' then
      var rest := Format(f, i + 1, args, color);
      if rest.None? then None else Some([Put(f[i], color)] + rest.value)
    else
      var d := Directive(f, i + 1, args, color);
      if d.None? then None
      else
        var rest := Format(f, d.value.i, d.value.args, d.value.color);
        if rest.None? then None else Some(d.value.out + rest.value)
  }

  // ---------------------------------------------------------------- properties

  function Max(a: int, b: int): int {
    if a < b then b else a
  }

  /** Every printing conversion is left spaces, prefix, zeros, data, right spaces, in
      that order and `max(width, prefix + zeros + data)` characters in all; at most
      one side is padded, the one the `-` flag selects. */
  lemma LayoutShape(item: Item, fl: Flags, width: int, precision: int) returns (left: nat, right: nat)
    ensures var zeros, len := ZeroCount(item, fl, width, precision), DataLength(item, precision);
            && Layout(item, fl, width, precision)
               == Repeat(left, ' ') + item.prefix + Repeat(zeros, '0') + item.data[..len] + Repeat(right, ' ')
            && |Layout(item, fl, width, precision)| == Max(width, |item.prefix| + zeros + len)
            && (if fl.left then left == 0 else right == 0)
    ensures item.numeric ==> DataLength(item, precision) == |item.data|
    ensures item.numeric && precision >= 0 ==>
              ZeroCount(item, fl, width, precision) + |item.data| == Max(precision, |item.data|)
    ensures item.numeric && precision < 0 && fl.zero && !fl.left ==> left == 0
    ensures !item.numeric ==> ZeroCount(item, fl, width, precision) == 0
  {
    var zeros, len := ZeroCount(item, fl, width, precision), DataLength(item, precision);
    var pad := width - (len + zeros + |item.prefix|);
    left, right := 0, 0;
    if pad > 0 {
      if fl.left {
        right := pad;
      } else {
        left := pad;
      }
    }
    assert Repeat(0, ' ') == "";
    if fl.left {
      assert "" + item.prefix == item.prefix;
    } else {
      var all := Repeat(pad, ' ') + item.prefix + Repeat(zeros, '0') + item.data[..len];
      assert all + "" == all;
    }
  }

  /** The value a sign and digits stand for. */
  function ReadSigned(prefix: string, digits: string): int {
    var n: int := ReadDigits(digits, 10);
    if prefix == "-" then -n else n
  }

  /** Sign, zeros and digits of a signed conversion read back as the argument,
      whatever the flags, width and precision. */
  lemma SignedRecovered(fl: Flags, x: int, width: int, precision: int)
    ensures var item := SignedItem(fl, x);
            && ReadSigned(item.prefix, Repeat(ZeroCount(item, fl, width, precision), '0') + item.data) == x
            && (item.prefix == "-" <==> x < 0)
  {
    var num := if x < 0 then -x else x;
    DigitsRoundTrip(num, 10);
    var item := SignedItem(fl, x);
    var z := ZeroCount(item, fl, width, precision);
    LeadingZeros(z, item.data, 10);
    assert Repeat(z, '0') == seq(z, _ => '0');
  }

  /** Likewise for unsigned and pointer conversions in their base. */
  lemma UnsignedRecovered(fl: Flags, num: nat, base: int, pointer: bool, width: int, precision: int)
    requires IsBase(base)
    ensures var item := UnsignedItem(fl, num, base, pointer);
            ReadDigits(Repeat(ZeroCount(item, fl, width, precision), '0') + item.data, Radix(base)) == num
  {
    DigitsRoundTrip(num, base);
    var item := UnsignedItem(fl, num, base, pointer);
    var z := ZeroCount(item, fl, width, precision);
    LeadingZeros(z, item.data, Radix(base));
    assert Repeat(z, '0') == seq(z, _ => '0');
  }

  /** An argument inside the range of its type is converted unchanged. */
  lemma SignedInRange(n: int, m: int)
    requires m > 0 && m % 2 == 0 && -m / 2 <= n < m / 2
    ensures Signed(n, m) == n
  {
    if n < 0 {
      DivModUnique(n, m, -1, n + m);
    } else {
      DivModUnique(n, m, 0, n);
    }
  }

  lemma DivModUnique(n: int, m: int, q: int, r: int)
    requires m > 0 && 0 <= r < m && n == q * m + r
    ensures n % m == r
  {
    X86.DivMod(n, m, q, r);
  }

  /** `va_arg` as a signed type keeps the argument modulo the type's size. */
  lemma SignedRange(n: int, m: int)
    requires m > 0 && m % 2 == 0
    ensures -m / 2 <= Signed(n, m) < m / 2 && Signed(n, m) % m == n % m
  {
    var u := n % m;
    DivModUnique(u, m, 0, u);
    DivModUnique(u - m, m, -1, u);
  }

  /** What a signed conversion shows: the argument modulo the size of its type, with
      the sign of that. */
  lemma SignedConversion(fl: Flags, long: bool, n: int, rest: seq<Arg>, width: int, precision: int)
    returns (item: Item, value: int)
    ensures ConvertSigned(fl, long, [Num(n)] + rest) == Some(Print(item, rest)) && item.numeric
    ensures var m := if long then LONG else INT;
            && -m / 2 <= value < m / 2 && value % m == n % m
            && (-m / 2 <= n < m / 2 ==> value == n)
    ensures ReadSigned(item.prefix, Repeat(ZeroCount(item, fl, width, precision), '0') + item.data) == value
    ensures item.prefix == if value < 0 then "-" else if fl.plus then "+" else if fl.space then " " else ""
    ensures IsNumeral(item.data, 10)
  {
    var args := [Num(n)] + rest;
    assert args[1..] == rest;
    var m := if long then LONG else INT;
    value := Signed(n, m);
    item := SignedItem(fl, value);
    hide Digits, ReadDigits, Signed, ZeroCount, Repeat;
    SignedRange(n, m);
    SignedRecovered(fl, value, width, precision);
    Numeral(if value < 0 then -value else value, 10);
    if -m / 2 <= n < m / 2 {
      SignedInRange(n, m);
    }
  }

  /** What an unsigned conversion shows: the argument modulo the size of its type. */
  lemma UnsignedConversion(c: char, fl: Flags, long: bool, n: int, rest: seq<Arg>, width: int, precision: int)
    returns (item: Item)
    requires c in {'u', 'x', 'X', 'p'}
    ensures Convert(c, fl, long, [Num(n)] + rest) == Some(Print(item, rest)) && item.numeric
    ensures var value := n % (if long || c == 'p' then LONG else INT);
            && ReadDigits(Repeat(ZeroCount(item, fl, width, precision), '0') + item.data, if c == 'u' then 10 else 16)
               == value
            && item.prefix
               == match c
                  case 'x' => if fl.alt && value != 0 then "0x" else ""
                  case 'X' => if fl.alt && value != 0 then "0X" else ""
                  case 'p' => "0x"
                  case _ => ""
    ensures IsNumeral(item.data, if c == 'u' then 10 else if c == 'X' then 16 else -16)
  {
    var args := [Num(n)] + rest;
    assert args[1..] == rest;
    item := Convert(c, fl, long, args).value.item;
    hide Digits, ReadDigits, ZeroCount, Repeat;
    var num, base := if long || c == 'p' then n % LONG else n % INT, if c == 'p' then -16 else UnsignedBase(c);
    UnsignedRecovered(fl, num, base, c == 'p', width, precision);
    Numeral(num, base);
  }

  /** Figures of the base, in its case, and no leading zero. */
  predicate IsNumeral(s: string, base: int) {
    && s != "" && (|s| > 1 ==> s[0] != '0')
    && forall i :: 0 <= i < |s| ==>
         || '0' <= s[i] <= '9'
         || (base == -16 && 'a' <= s[i] <= 'f')
         || (base == 16 && 'A' <= s[i] <= 'F')
  }

  lemma Numeral(val: nat, base: int)
    requires IsBase(base)
    ensures IsNumeral(Digits(val, base), base)
  {
    NoLeadingZero(val, base);
    DigitCase(val, base);
  }

  lemma {:induction false} DigitCase(val: nat, base: int)
    requires IsBase(base)
    ensures forall i :: 0 <= i < |Digits(val, base)| ==>
              var d := Digits(val, base)[i];
              '0' <= d <= '9' || (base == -16 && 'a' <= d <= 'f') || (base == 16 && 'A' <= d <= 'F')
    decreases val
  {
    if val >= Radix(base) {
      DigitCase(val / Radix(base), base);
    }
  }

  // ----------------------------------------------------------------------- sink

  function Chars(t: seq<Put>): string {
    seq(|t|, i requires 0 <= i < |t| => t[i].c)
  }

  function Min(a: nat, b: nat): nat {
    if a < b then a else b
  }

  /** The string_printer struct: characters go to `buf[..end]` while there is room. */
  class StringPrinter {
    const buf: array<char>
    const end: nat
    var s: nat
    ghost var trace: seq<Put>        // every putc so far
    ghost const before: seq<char>    // the buffer at the start

    ghost predicate Valid()
      reads this, buf
    {
      && end < buf.Length == |before|
      && s == Min(end, |trace|)
      && buf[..s] == Chars(trace)[..s]
      && buf[s..] == before[s..]
    }

    constructor (buf: array<char>, end: nat)
      requires end < buf.Length
      ensures Valid() && this.buf == buf && this.end == end && trace == [] && before == buf[..]
    {
      this.buf := buf;
      this.end := end;
      s := 0;
      trace := [];
      before := buf[..];
    }

    /** string_putc (lib.c:350-356). */
    method Putc(c: char, color: int)
      requires Valid()
      modifies this, buf
      ensures Valid() && trace == old(trace) + [Put(c, color)]
    {
      if s < end {
        buf[s] := c;
        s := s + 1;
      }
      trace := trace + [Put(c, color)];
    }

    /** The padding loops of lib.c:284-298. */
    method Fill(c: char, n: int, color: int)
      requires Valid()
      modifies this, buf
      ensures Valid() && trace == old(trace) + Colored(Repeat(n, c), color)
    {
      var k := n;
      while k > 0
        invariant Valid() && (k <= n || n < 0) && (n < 0 ==> k == n)
        invariant k >= 0 || n < 0
        invariant trace == old(trace) + Colored(Repeat(n - k, c), color)
        decreases k
      {
        Putc(c, color);
        assert Repeat(n - k + 1, c) == Repeat(n - k, c) + [c];
        ColoredAppend(Repeat(n - k, c), [c], color);
        k := k - 1;
      }
    }

    /** Characters of a string one by one. */
    method PutString(t: string, color: int)
      requires Valid()
      modifies this, buf
      ensures Valid() && trace == old(trace) + Colored(t, color)
    {
      var k := 0;
      while k < |t|
        invariant Valid() && 0 <= k <= |t|
        invariant trace == old(trace) + Colored(t[..k], color)
      {
        Putc(t[k], color);
        assert t[..k + 1] == t[..k] + [t[k]];
        ColoredAppend(t[..k], [t[k]], color);
        k := k + 1;
      }
      assert t[..k] == t;
    }
  }

  lemma ColoredAppend(a: string, b: string, color: int)
    ensures Colored(a + b, color) == Colored(a, color) + Colored(b, color)
  {
  }

  // ------------------------------------------------------------- the C routines

  /** The flag loop (lib.c:152-161); stops at the NUL at the latest. */
  method ReadFlags(f: CString, i: nat) returns (j: nat, fl: Flags)
    requires i <= |f|
    ensures (j, fl) == ScanFlags(f, i, NO_FLAGS)
  {
    j, fl := i, NO_FLAGS;
    while j < |f| && IsFlag(f[j])
      invariant i <= j <= |f|
      invariant ScanFlags(f, j, fl) == ScanFlags(f, i, NO_FLAGS)
    {
      fl := SetFlag(fl, f[j]);
      j := j + 1;
    }
  }

  /** The digit loops of lib.c:166 and 179. */
  method ReadNumber(f: CString, i: nat) returns (j: nat, n: nat)
    requires i <= |f|
    ensures (j, n) == ScanNumber(f, i, 0)
  {
    j, n := i, 0;
    while j < |f| && IsDigit(f[j])
      invariant i <= j <= |f|
      invariant ScanNumber(f, j, n) == ScanNumber(f, i, 0)
    {
      n := 10 * n + (f[j] as int - '0' as int);
      j := j + 1;
    }
  }

  /** The `again` jumps on `l` and `z` (lib.c:196-202). */
  method ReadLength(f: CString, i: nat) returns (j: nat, long: bool)
    requires i <= |f|
    ensures (j, long) == ScanLength(f, i, false)
  {
    j, long := i, false;
    while j < |f| && (f[j] == 'l' || f[j] == 'z')
      invariant i <= j <= |f|
      invariant ScanLength(f, j, long) == ScanLength(f, i, false)
    {
      long := true;
      j := j + 1;
    }
  }

  /** A number's digits, by way of the number buffer. */
  method NumberText(num: nat, base: int) returns (data: CString)
    requires IsBase(base) && num < LONG
    ensures data == NumberData(num, base)
  {
    NoLeadingZero(num, base);
    var numbuf := new char[NUMBUFSIZ];
    var start := FillNumbuf(numbuf, num, base);
    data := numbuf[start..23];
  }

  /** The switch of lib.c:197-246 and the number formatting after it. */
  method ConvertOne(c: char, fl: Flags, long: bool, args: seq<Arg>) returns (conv: Conversion)
    requires Convert(c, fl, long, args).Some?
    ensures Convert(c, fl, long, args) == Some(conv)
  {
    hide Digits;
    match c {
      case 'd' =>
        conv := SignedOne(fl, long, args);
      case 'i' =>
        conv := SignedOne(fl, long, args);
      case 'u' =>
        conv := UnsignedOne(c, fl, long, args);
      case 'x' =>
        conv := UnsignedOne(c, fl, long, args);
      case 'X' =>
        conv := UnsignedOne(c, fl, long, args);
      case 'p' =>
        var num := Wrap(args[0].n, LONG);
        var data := NumberText(num, -16);
        conv := Print(Item("0x", data, true), args[1..]);
      case 's' =>
        conv := Print(Item("", args[0].s, false), args[1..]);
      case 'C' =>
        conv := Recolor(Signed(args[0].n, INT), args[1..]);
      case 'c' =>
        conv := Print(Item("", CharData(ToChar(args[0].n)), false), args[1..]);
      case _ =>
        conv := Print(Item("", CharData(if c == '\0' then '%' else c), false), args);
    }
  }

  method SignedOne(fl: Flags, long: bool, args: seq<Arg>) returns (conv: Conversion)
    requires ConvertSigned(fl, long, args).Some?
    ensures ConvertSigned(fl, long, args) == Some(conv)
  {
    hide Digits, Signed;
    var x := Signed(args[0].n, if long then LONG else INT);
    SignedRange(args[0].n, if long then LONG else INT);
    var negative := x < 0;
    var num := if negative then -x else x;
    var data := NumberText(num, 10);
    var prefix := "";
    if negative {
      prefix := "-";
    } else if fl.plus {
      prefix := "+";
    } else if fl.space {
      prefix := " ";
    }
    conv := Print(Item(prefix, data, true), args[1..]);
  }

  method UnsignedOne(c: char, fl: Flags, long: bool, args: seq<Arg>) returns (conv: Conversion)
    requires ConvertUnsigned(c, fl, long, args).Some?
    ensures ConvertUnsigned(c, fl, long, args) == Some(conv)
  {
    hide Digits;
    var base := UnsignedBase(c);
    var num := Wrap(args[0].n, if long then LONG else INT);
    var data := NumberText(num, base);
    var prefix := "";
    if fl.alt && (base == 16 || base == -16) && num != 0 {
      prefix := if base == -16 then "0x" else "0X";
    }
    conv := Print(Item(prefix, data, true), args[1..]);
  }

  /** Padding, prefix, zeros, data, padding (lib.c:267-298). */
  method Emit(p: StringPrinter, item: Item, fl: Flags, width: int, precision: int, color: int)
    requires p.Valid()
    modifies p, p.buf
    ensures p.Valid() && p.trace == old(p.trace) + Colored(Layout(item, fl, width, precision), color)
  {
    hide Colored, Repeat, DataLength, ZeroCount;
    var len, zeros := DataLength(item, precision), ZeroCount(item, fl, width, precision);
    var pad := width - (len + zeros + |item.prefix|);
    ghost var start := p.trace;
    ghost var left, right := if fl.left then "" else Repeat(pad, ' '), if fl.left then Repeat(pad, ' ') else "";
    FiveParts(left, item.prefix, Repeat(zeros, '0'), item.data[..len], right, color);
    if !fl.left {
      p.Fill(' ', pad, color);
    }
    assert p.trace == start + Colored(left, color);
    p.PutString(item.prefix, color);
    p.Fill('0', zeros, color);
    p.PutString(item.data[..len], color);
    ghost var middle := p.trace;
    if fl.left {
      p.Fill(' ', pad, color);
    }
    assert p.trace == middle + Colored(right, color);
    Regroup(start, Colored(left, color), Colored(item.prefix, color), Colored(Repeat(zeros, '0'), color),
      Colored(item.data[..len], color), Colored(right, color));
  }

  lemma Regroup<T>(s: seq<T>, a: seq<T>, b: seq<T>, c: seq<T>, d: seq<T>, e: seq<T>)
    ensures s + a + b + c + d + e == s + (a + b + c + d + e)
  {
  }

  lemma FiveParts(a: string, b: string, c: string, d: string, e: string, color: int)
    ensures Colored(a + b + c + d + e, color)
         == Colored(a, color) + Colored(b, color) + Colored(c, color) + Colored(d, color) + Colored(e, color)
    ensures Colored("", color) == []
  {
    ColoredAppend(a, b, color);
    ColoredAppend(a + b, c, color);
    ColoredAppend(a + b + c, d, color);
    ColoredAppend(a + b + c + d, e, color);
  }

  /** The width (lib.c:163-172). */
  method ReadWidth(f: CString, i: nat, args: seq<Arg>) returns (j: nat, rest: seq<Arg>, width: int)
    requires i <= |f| && ScanWidth(f, i, args).Some?
    ensures ScanWidth(f, i, args) == Some(Field(j, rest, width))
  {
    hide ScanNumber, Signed;
    j, rest, width := i, args, -1;
    if '1' <= At(f, j) <= '9' {
      j, width := ReadNumber(f, j);
    } else if At(f, j) == '*' {
      width := Signed(rest[0].n, INT);
      rest := rest[1..];
      j := j + 1;
    }
  }

  /** The precision (lib.c:174-189). */
  method ReadPrecision(f: CString, i: nat, args: seq<Arg>) returns (j: nat, rest: seq<Arg>, precision: int)
    requires i <= |f| && ScanPrecision(f, i, args).Some?
    ensures ScanPrecision(f, i, args) == Some(Field(j, rest, precision))
  {
    hide ScanNumber, Signed;
    j, rest, precision := i, args, -1;
    if At(f, j) == '.' {
      j := j + 1;
      if IsDigit(At(f, j)) {
        j, precision := ReadNumber(f, j);
      } else if At(f, j) == '*' {
        precision := Signed(rest[0].n, INT);
        rest := rest[1..];
        j := j + 1;
      }
      if precision < 0 {
        precision := 0;
      }
    }
  }

  /** One directive (lib.c:152-299), `i` just after the `%`. */
  method DirectiveOne(p: StringPrinter, f: CString, i: nat, args: seq<Arg>, color: int)
    returns (j: nat, rest: seq<Arg>, color': int)
    requires p.Valid() && i <= |f| && 0 < i && Directive(f, i, args, color).Some?
    modifies p, p.buf
    ensures p.Valid()
    ensures var o := Directive(f, i, args, color).value;
            j == o.i && rest == o.args && color' == o.color && p.trace == old(p.trace) + o.out
  {
    hide Convert, Layout, ScanFlags, ScanWidth, ScanPrecision, ScanLength, Colored;
    var fl, width, precision, long;
    j, fl := ReadFlags(f, i);
    j, rest, width := ReadWidth(f, j, args);
    j, rest, precision := ReadPrecision(f, j, rest);
    j, long := ReadLength(f, j);
    var c := At(f, j);
    var conv := ConvertOne(c, fl, long, rest);
    rest := conv.args;
    if c == '\0' {
      j := j - 1;
    }
    j := j + 1;
    match conv {
      case Recolor(newColor, _) =>
        color' := newColor;
      case Print(item, _) =>
        Emit(p, item, fl, width, precision, color);
        color' := color;
    }
  }

  /** printer_vprintf (lib.c:142-301) into a string sink. */
  method PrinterVprintf(p: StringPrinter, color0: int, f: CString, args0: seq<Arg>)
    requires p.Valid() && Format(f, 0, args0, color0).Some?
    modifies p, p.buf
    ensures p.Valid() && p.trace == old(p.trace) + Format(f, 0, args0, color0).value
  {
    hide Directive;
    var i, args, color := 0, args0, color0;
    while i < |f|
      invariant p.Valid() && 0 <= i <= |f| && Format(f, i, args, color).Some?
      invariant p.trace + Format(f, i, args, color).value == old(p.trace) + Format(f, 0, args0, color0).value
      decreases |f| - i
    {
      ghost var todo := Format(f, i, args, color).value;
      ghost var done := p.trace;
      if f[i] != '%' {
        p.Putc(f[i], color);
        i := i + 1;
        assert todo == [Put(f[i - 1], color)] + Format(f, i, args, color).value;
        assert p.trace + Format(f, i, args, color).value == done + todo;
      } else {
        ghost var o := Directive(f, i + 1, args, color).value;
        i, args, color := DirectiveOne(p, f, i + 1, args, color);
        assert todo == o.out + Format(f, i, args, color).value;
        assert p.trace + Format(f, i, args, color).value == done + todo;
      }
    }
  }

  /** vsnprintf (lib.c:358-368): the first `min(size - 1, full length)` characters of
      the unbounded output, a NUL, and nothing else touched. */
  method Vsnprintf(buf: array<char>, size: nat, f: CString, args: seq<Arg>) returns (n: nat)
    requires size <= buf.Length && Format(f, 0, args, 0).Some?
    modifies buf
    ensures size == 0 ==> n == 0 && buf[..] == old(buf[..])
    ensures size > 0 ==>
              var full := Chars(Format(f, 0, args, 0).value);
              && n == Min(size - 1, |full|) && n < size
              && buf[..n] == full[..n] && buf[n] == '\0'
              && buf[n + 1..] == old(buf[n + 1..])
  {
    if size == 0 {
      return 0;
    }
    var sp := new StringPrinter(buf, size - 1);
    PrinterVprintf(sp, 0, f, args);
    hide Format;
    assert sp.trace == Format(f, 0, args, 0).value;
    n := sp.s;
    buf[n] := '\0';
    assert buf[n + 1..] == sp.before[n + 1..];
  }
}

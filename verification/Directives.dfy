/** What whole directives print, read off their text: the flag characters, the decimal
    width and precision, and the conversion (lib.c:142-301). */
module Directives {
  import opened Numbers
  import opened Printf

  // --------------------------------------------------------------- directives

  /** A number in a directive: its decimal digits, or a `*` and the argument it takes. */
  datatype Count = Written(digits: string) | Starred(n: int) {
    function Text(): string {
      if Starred? then "*" else digits
    }

    function Args(): seq<Arg> {
      if Starred? then [Num(n)] else []
    }

    predicate Valid() {
      if Starred? then -0x8000_0000 <= n < 0x8000_0000
      else forall k :: 0 <= k < |digits| ==> '0' <= digits[k] <= '9'
    }

    function Value(): int {
      if Starred? then n else ReadDigits(digits, 10)
    }
  }

  const NOTHING := Written("")

  /** A directive after its `%`; `c` is NUL where the format ends instead. */
  datatype Spec = Spec(flags: string, width: Count, point: bool, precision: Count, length: string, c: char) {
    function Text(): string {
      flags + width.Text() + (if point then "." else "") + precision.Text() + length + Last()
    }

    function Last(): string {
      if c == '\0' then "" else [c]
    }

    /** Flags, then a number that does not start with 0, then `.` and a number, then
        `l` and `z`, then a character that is none of these. */
    predicate Valid() {
      && (forall k :: 0 <= k < |flags| ==> flags[k] in {'#', '0', '-', ' ', '+'})
      && width.Valid() && precision.Valid()
      && (width != NOTHING ==> width.Text()[0] != '0')
      && (precision != NOTHING ==> point)
      && (forall k :: 0 <= k < |length| ==> length[k] in {'l', 'z'})
      && c !in {'#', '0', '-', ' ', '+', '.', '*', 'l', 'z'} && !('0' <= c <= '9')
    }

    /** The arguments its stars take. */
    function Args(): seq<Arg> {
      width.Args() + precision.Args()
    }

    /** -1 for none. A lone `.` stands for precision 0, and so does a negative argument. */
    function Width(): int {
      if width == NOTHING then -1 else width.Value()
    }

    function Precision(): int {
      if point then Max(precision.Value(), 0) else -1
    }
  }

  /** The flags are those whose characters occur. */
  predicate FlagsOf(fl: Flags, s: string) {
    && (fl.alt <==> '#' in s)
    && (fl.zero <==> '0' in s)
    && (fl.left <==> '-' in s)
    && (fl.space <==> ' ' in s)
    && (fl.plus <==> '+' in s)
  }

  // ------------------------------------------------------------------ scanning

  predicate FlagChar(c: char) {
    c in {'#', '0', '-', ' ', '+'}
  }

  lemma FlagSet(fl: Flags, seen: string, c: char)
    requires FlagChar(c) && FlagsOf(fl, seen)
    ensures FlagsOf(SetFlag(fl, c), seen + [c])
  {
  }

  lemma {:induction false} FlagsStretch(f: CString, i: nat, fl: Flags, seen: string)
    requires i <= |f| && FlagsOf(fl, seen)
    ensures var (j, r) := ScanFlags(f, i, fl);
            && (forall k :: i <= k < j ==> FlagChar(f[k])) && (j < |f| ==> !FlagChar(f[j]))
            && FlagsOf(r, seen + f[i..j])
    decreases |f| - i
  {
    if i < |f| && IsFlag(f[i]) {
      var (j, r) := ScanFlags(f, i, fl);
      FlagSet(fl, seen, f[i]);
      hide SetFlag, FlagsOf;
      FlagsStretch(f, i + 1, SetFlag(fl, f[i]), seen + [f[i]]);
      assert seen + [f[i]] + f[i + 1..j] == seen + f[i..j];
    } else {
      assert seen + f[i..i] == seen;
    }
  }

  /** The flag scan stops at the first character that is no flag, and each flag is set
      exactly when its character occurred before that. */
  lemma FlagsMeaning(f: CString, i: nat)
    requires i <= |f|
    ensures var (j, fl) := ScanFlags(f, i, NO_FLAGS);
            && (forall k :: i <= k < j ==> f[k] in {'#', '0', '-', ' ', '+'})
            && (j < |f| ==> f[j] !in {'#', '0', '-', ' ', '+'})
            && FlagsOf(fl, f[i..j])
  {
    FlagsStretch(f, i, NO_FLAGS, "");
    assert "" + f[i..ScanFlags(f, i, NO_FLAGS).0] == f[i..ScanFlags(f, i, NO_FLAGS).0];
  }

  lemma DigitIs(c: char)
    requires '0' <= c <= '9'
    ensures DigitValue(c) == c as int - '0' as int
  {
  }

  lemma {:induction false} NumberStretch(f: CString, i: nat, seen: string)
    requires i <= |f|
    ensures var (j, n) := ScanNumber(f, i, ReadDigits(seen, 10));
            && (forall k :: i <= k < j ==> '0' <= f[k] <= '9') && (j < |f| ==> !('0' <= f[j] <= '9'))
            && n == ReadDigits(seen + f[i..j], 10)
    decreases |f| - i
  {
    hide ReadDigits, DigitValue;
    if i < |f| && IsDigit(f[i]) {
      NextValue(seen, f[i]);
      NumberStretch(f, i + 1, seen + [f[i]]);
      var j := ScanNumber(f, i + 1, ReadDigits(seen + [f[i]], 10)).0;
      assert seen + [f[i]] + f[i + 1..j] == seen + f[i..j];
    } else {
      assert seen + f[i..i] == seen;
    }
  }

  lemma NextValue(seen: string, c: char)
    requires '0' <= c <= '9'
    ensures 10 * ReadDigits(seen, 10) + (c as int - '0' as int) == ReadDigits(seen + [c], 10)
  {
    ReadLast(seen, c, 10);
    DigitIs(c);
    hide ReadDigits, DigitValue;
  }

  /** The number scan stops at the first character that is no digit and yields the
      digits' value in base 10. */
  lemma NumberMeaning(f: CString, i: nat)
    requires i <= |f|
    ensures var (j, n) := ScanNumber(f, i, 0);
            && (forall k :: i <= k < j ==> '0' <= f[k] <= '9') && (j < |f| ==> !('0' <= f[j] <= '9'))
            && n == ReadDigits(f[i..j], 10)
  {
    ReadNothing(10);
    NumberStretch(f, i, "");
    assert "" + f[i..ScanNumber(f, i, 0).0] == f[i..ScanNumber(f, i, 0).0];
  }

  lemma {:induction false} LengthMeaning(f: CString, i: nat, long: bool)
    requires i <= |f|
    ensures var (j, r) := ScanLength(f, i, long);
            && (forall k :: i <= k < j ==> f[k] in {'l', 'z'}) && (j < |f| ==> f[j] !in {'l', 'z'})
            && (r <==> long || j > i)
    decreases |f| - i
  {
    if i < |f| && (f[i] == 'l' || f[i] == 'z') {
      LengthMeaning(f, i + 1, true);
    }
  }

  // ------------------------------------------------------------------- parsing

  /** `x` stands in `f` from `i` on. */
  predicate Here(f: string, i: nat, x: string) {
    i + |x| <= |f| && f[i..i + |x|] == x
  }

  predicate Stands(f: CString, i: nat, d: Spec) {
    Here(f, i, d.Text()) && (d.c == '\0' ==> i + |d.Text()| == |f|)
  }

  /** Where the parts of a directive lie. */
  lemma Parts(f: CString, i: nat, d: Spec)
    requires Stands(f, i, d)
    ensures var dot := if d.point then "." else "";
            var a := i + |d.flags|;
            var b := a + |d.width.Text()|;
            var p := b + |dot|;
            var q := p + |d.precision.Text()|;
            var r := q + |d.length|;
            && Here(f, i, d.flags) && Here(f, a, d.width.Text()) && Here(f, b, dot) && Here(f, p, d.precision.Text())
            && Here(f, q, d.length) && Here(f, r, d.Last()) && r + |d.Last()| == i + |d.Text()|
  {
    hide Here;
    var dot := if d.point then "." else "";
    Assoc(d.flags, d.width.Text(), dot, d.precision.Text(), d.length, d.Last());
    Pieces(f, i, d.flags, d.width.Text(), dot, d.precision.Text(), d.length, d.Last());
  }

  lemma Pieces(f: string, i: nat, a: string, b: string, c: string, d: string, e: string, g: string)
    requires Here(f, i, a + (b + (c + (d + (e + g)))))
    ensures var j := i + |a|;
            var k := j + |b|;
            var l := k + |c|;
            var m := l + |d|;
            var n := m + |e|;
            Here(f, i, a) && Here(f, j, b) && Here(f, k, c) && Here(f, l, d) && Here(f, m, e) && Here(f, n, g)
  {
    hide Here;
    Peel(f, i, a, b + (c + (d + (e + g))));
    Peel(f, i + |a|, b, c + (d + (e + g)));
    Peel(f, i + |a| + |b|, c, d + (e + g));
    Peel(f, i + |a| + |b| + |c|, d, e + g);
    Peel(f, i + |a| + |b| + |c| + |d|, e, g);
  }

  lemma Assoc(a: string, b: string, c: string, d: string, e: string, g: string)
    ensures a + b + c + d + e + g == a + (b + (c + (d + (e + g))))
  {
  }

  lemma Peel(f: string, i: nat, x: string, y: string)
    requires Here(f, i, x + y)
    ensures Here(f, i, x) && Here(f, i + |x|, y)
  {
    var w := f[i..i + |x + y|];
    assert w[..|x|] == x && w[|x|..] == y;
  }

  /** The characters of a piece. */
  lemma HereAt(f: string, i: nat, x: string)
    requires Here(f, i, x)
    ensures forall k :: 0 <= k < |x| ==> f[i + k] == x[k]
  {
    var w := f[i..i + |x|];
    forall k | 0 <= k < |x| ensures f[i + k] == x[k] {
      assert w[k] == f[i + k];
    }
  }

  predicate NoDigit(c: char) {
    !('0' <= c <= '9')
  }

  /** What follows the numbers of a directive. */
  predicate Follows(c: char) {
    c !in {'#', '0', '-', ' ', '+', '.', '*'} && NoDigit(c)
  }

  /** The letters and the conversion character from `q` on. */
  predicate EndsAt(f: CString, q: nat, d: Spec) {
    && Here(f, q, d.length) && Here(f, q + |d.length|, d.Last())
    && (d.c == '\0' ==> q + |d.length| == |f|)
  }

  lemma AfterNumbers(f: CString, q: nat, d: Spec)
    requires d.Valid() && EndsAt(f, q, d)
    ensures q <= |f| && Follows(At(f, q))
  {
    HereAt(f, q, d.length);
    HereAt(f, q + |d.length|, d.Last());
    if d.length != "" {
      assert f[q + 0] == d.length[0];
    } else if d.c != '\0' {
      assert f[q + 0] == d.Last()[0];
    }
  }

  lemma FlagPart(f: CString, i: nat, d: Spec)
    requires d.Valid() && Here(f, i, d.flags) && i + |d.flags| <= |f| && !FlagChar(At(f, i + |d.flags|))
    ensures var (a, fl) := ScanFlags(f, i, NO_FLAGS); a == i + |d.flags| && FlagsOf(fl, d.flags)
  {
    FlagsMeaning(f, i);
    HereAt(f, i, d.flags);
    hide ScanFlags, FlagsOf;
    var e := i + |d.flags|;
    forall k | i <= k < e ensures FlagChar(f[k]) {
      assert f[i + (k - i)] == d.flags[k - i];
    }
  }

  lemma DigitPart(f: CString, i: nat, x: string)
    requires Here(f, i, x) && (forall k :: 0 <= k < |x| ==> '0' <= x[k] <= '9')
    requires i + |x| <= |f| && NoDigit(At(f, i + |x|))
    ensures ScanNumber(f, i, 0) == (i + |x|, ReadDigits(x, 10))
  {
    NumberMeaning(f, i);
    HereAt(f, i, x);
    hide ScanNumber, ReadDigits;
    var e := i + |x|;
    forall k | i <= k < e ensures '0' <= f[k] <= '9' {
      assert f[i + (k - i)] == x[k - i];
    }
  }

  lemma WidthPart(f: CString, a: nat, d: Spec, args: seq<Arg>)
    requires d.Valid() && Here(f, a, d.width.Text()) && a + |d.width.Text()| <= |f|
    requires var c := At(f, a + |d.width.Text()|); c == '.' || Follows(c)
    ensures ScanWidth(f, a, d.width.Args() + args) == Some(Field(a + |d.width.Text()|, args, d.Width()))
  {
    HereAt(f, a, d.width.Text());
    if d.width.Starred? {
      assert f[a + 0] == '*';
      SignedInRange(d.width.n, INT);
      assert (d.width.Args() + args)[1..] == args;
    } else {
      assert d.width.Args() + args == args;
      if d.width != NOTHING {
        DigitPart(f, a, d.width.digits);
        assert f[a + 0] == d.width.digits[0];
      }
    }
    hide ScanNumber, ReadDigits;
  }

  lemma PrecisionPart(f: CString, b: nat, d: Spec, args: seq<Arg>)
    requires d.Valid() && Here(f, b, if d.point then "." else "")
    requires var p := b + if d.point then 1 else 0;
             && Here(f, p, d.precision.Text()) && p + |d.precision.Text()| <= |f|
             && Follows(At(f, p + |d.precision.Text()|))
    ensures ScanPrecision(f, b, d.precision.Args() + args)
         == Some(Field(b + (if d.point then 1 else 0) + |d.precision.Text()|, args, d.Precision()))
  {
    ReadNothing(10);
    hide ScanNumber, ReadDigits;
    if d.point {
      HereAt(f, b, ".");
      assert f[b + 0] == '.';
      HereAt(f, b + 1, d.precision.Text());
      if d.precision.Starred? {
        assert f[b + 1 + 0] == '*';
        SignedInRange(d.precision.n, INT);
        assert (d.precision.Args() + args)[1..] == args;
      } else {
        assert d.precision.Args() + args == args;
        if d.precision != NOTHING {
          DigitPart(f, b + 1, d.precision.digits);
          assert f[b + 1 + 0] == d.precision.digits[0];
        }
      }
    } else {
      assert d.precision.Args() + args == args;
    }
  }

  lemma LengthPart(f: CString, q: nat, d: Spec)
    requires d.Valid() && EndsAt(f, q, d)
    ensures ScanLength(f, q, false) == (q + |d.length|, d.length != "")
    ensures q + |d.length| <= |f| && At(f, q + |d.length|) == d.c
  {
    LengthMeaning(f, q, false);
    HereAt(f, q, d.length);
    HereAt(f, q + |d.length|, d.Last());
    hide ScanLength;
    var r := q + |d.length|;
    if d.c != '\0' {
      assert f[r + 0] == d.Last()[0];
    }
    forall k | q <= k < r ensures f[k] in {'l', 'z'} {
      assert f[q + (k - q)] == d.length[k - q];
    }
  }

  /** The four scans read exactly the parts of the directive. */
  lemma ScansParts(f: CString, i: nat, d: Spec, args: seq<Arg>)
    requires Stands(f, i, d) && d.Valid()
    ensures i + |d.flags| <= |f|
    ensures var (a, fl) := ScanFlags(f, i, NO_FLAGS); a == i + |d.flags| && FlagsOf(fl, d.flags)
    ensures var a := i + |d.flags|;
            var b := a + |d.width.Text()|;
            var q := b + (if d.point then 1 else 0) + |d.precision.Text()|;
            var r := q + |d.length|;
            && a <= b <= q <= r <= |f| && r + |d.Last()| == i + |d.Text()| && At(f, r) == d.c
            && ScanWidth(f, a, d.Args() + args) == Some(Field(b, d.precision.Args() + args, d.Width()))
            && ScanPrecision(f, b, d.precision.Args() + args) == Some(Field(q, args, d.Precision()))
            && ScanLength(f, q, false) == (r, d.length != "")
  {
    hide Here, ScanFlags, ScanNumber, ScanLength, ReadDigits, ScanWidth, ScanPrecision, FlagsOf;
    Parts(f, i, d);
    var a := i + |d.flags|;
    var b := a + |d.width.Text()|;
    var p := b + if d.point then 1 else 0;
    var q := p + |d.precision.Text()|;
    LengthPart(f, q, d);
    AfterNumbers(f, q, d);
    PrecisionPart(f, b, d, args);
    NextAtPoint(f, b, d);
    assert d.Args() + args == d.width.Args() + (d.precision.Args() + args);
    WidthPart(f, a, d, d.precision.Args() + args);
    NextAtWidth(f, a, d);
    FlagPart(f, i, d);
  }

  lemma NextAtPoint(f: CString, b: nat, d: Spec)
    requires d.Valid() && Here(f, b, if d.point then "." else "")
    requires var q := b + (if d.point then 1 else 0) + |d.precision.Text()|; q <= |f| && Follows(At(f, q))
    ensures b <= |f| && (At(f, b) == '.' || Follows(At(f, b)))
  {
    if d.point {
      HereAt(f, b, ".");
      assert f[b + 0] == '.';
    }
  }

  lemma NextAtWidth(f: CString, a: nat, d: Spec)
    requires d.Valid() && Here(f, a, d.width.Text())
    requires var b := a + |d.width.Text()|; b <= |f| && (At(f, b) == '.' || Follows(At(f, b)))
    ensures a <= |f| && !FlagChar(At(f, a))
  {
    if d.width != NOTHING {
      HereAt(f, a, d.width.Text());
      assert f[a + 0] == d.width.Text()[0];
    }
  }

  /** What the directive prints, in terms of its text. */
  lemma DirectiveMeaning(f: CString, i: nat, d: Spec, args: seq<Arg>, color: int) returns (fl: Flags)
    requires Stands(f, i, d) && d.Valid() && i <= |f|
    ensures FlagsOf(fl, d.flags)
    ensures Directive(f, i, d.Args() + args, color)
         == match Convert(d.c, fl, d.length != "", args)
            case None => None
            case Some(Recolor(c, rest)) => Some(Outcome(i + |d.Text()|, rest, c, []))
            case Some(Print(item, rest)) =>
              Some(Outcome(i + |d.Text()|, rest, color, Colored(Layout(item, fl, d.Width(), d.Precision()), color)))
  {
    hide Here, ScanFlags, ScanNumber, ScanLength, ReadDigits, ScanWidth, ScanPrecision, FlagsOf, Convert, Layout,
         Colored;
    ScansParts(f, i, d, args);
    fl := ScanFlags(f, i, NO_FLAGS).1;
  }

  // --------------------------------------------------------------- conversions

  predicate AllOf(s: string, c: char) {
    forall k :: 0 <= k < |s| ==> s[k] == c
  }

  /** `left` and `right` are the spaces that bring `n` characters to the width, all on
      the side that the `-` flag selects. */
  predicate Padding(d: Spec, n: nat, left: string, right: string) {
    && AllOf(left, ' ') && AllOf(right, ' ')
    && (if '-' in d.flags then left == "" else right == "")
    && |left| + n + |right| == Max(d.Width(), n)
  }

  /** Which prefix an integer gets; `value` is what its digits stand for. */
  function PrefixOf(d: Spec, value: int): string {
    match d.c
    case 'd' => SignOf(d, value)
    case 'i' => SignOf(d, value)
    case 'x' => if '#' in d.flags && value != 0 then "0x" else ""
    case 'X' => if '#' in d.flags && value != 0 then "0X" else ""
    case 'p' => "0x"
    case _ => ""
  }

  function SignOf(d: Spec, value: int): string {
    if value < 0 then "-" else if '+' in d.flags then "+" else if ' ' in d.flags then " " else ""
  }

  function Modulus(d: Spec): int {
    if d.length != "" || d.c == 'p' then LONG else INT
  }

  predicate IsSigned(d: Spec) {
    d.c == 'd' || d.c == 'i'
  }

  /** The value an integer conversion shows: the argument modulo the size of its type,
      in the range of its type. */
  predicate Shows(d: Spec, n: int, value: int) {
    if IsSigned(d) then
      && -Modulus(d) / 2 <= value < Modulus(d) / 2 && value % Modulus(d) == n % Modulus(d)
      && (-Modulus(d) / 2 <= n < Modulus(d) / 2 ==> value == n)
    else value == n % Modulus(d)
  }

  /** The base of the figures; negative for lower case. */
  function BaseOf(d: Spec): int {
    if d.c == 'x' || d.c == 'p' then -16 else if d.c == 'X' then 16 else 10
  }

  /** An integer directive prints spaces, prefix, zeros, digits and spaces. The zeros
      and digits read back as the value; a precision is reached by zeros; without one
      the `0` flag, unless `-` is there too, fills the width with zeros; otherwise there
      are none. */
  lemma IntegerDirective(f: CString, i: nat, d: Spec, n: int, rest: seq<Arg>, color: int)
    returns (left: string, prefix: string, zeros: string, digits: string, right: string, value: int)
    requires Stands(f, i, d) && d.Valid() && i <= |f| && d.c in {'d', 'i', 'u', 'x', 'X', 'p'}
    ensures Directive(f, i, d.Args() + ([Num(n)] + rest), color)
         == Some(Outcome(i + |d.Text()|, rest, color, Colored(left + prefix + zeros + digits + right, color)))
    ensures Shows(d, n, value) && prefix == PrefixOf(d, value) && IsNumeral(digits, BaseOf(d))
    ensures value == if IsSigned(d) then ReadSigned(prefix, zeros + digits)
                     else ReadDigits(zeros + digits, if d.c == 'u' then 10 else 16)
    ensures Padding(d, |prefix| + |zeros| + |digits|, left, right) && AllOf(zeros, '0')
    ensures if d.point then |zeros| + |digits| == Max(d.Precision(), |digits|)
            else if '0' in d.flags && '-' !in d.flags then left == ""
            else zeros == ""
  {
    hide Stands, Directive, Convert, Layout, Colored, Spec.Valid, Repeat, ZeroCount, FlagsOf, Padding, Shows, PrefixOf,
      IsNumeral, ReadDigits, ReadSigned;
    var fl := DirectiveMeaning(f, i, d, [Num(n)] + rest, color);
    var item;
    item, value := Shown(d, fl, n, rest);
    var l, r := PartsPrinted(item, fl, d);
    var z := ZeroCount(item, fl, d.Width(), d.Precision());
    left, prefix, zeros, digits, right := Repeat(l, ' '), item.prefix, Repeat(z, '0'), item.data, Repeat(r, ' ');
    Repeated(z, '0');
  }

  /** The item of an integer conversion and the value it shows. */
  lemma Shown(d: Spec, fl: Flags, n: int, rest: seq<Arg>) returns (item: Item, value: int)
    requires d.c in {'d', 'i', 'u', 'x', 'X', 'p'} && FlagsOf(fl, d.flags)
    ensures Convert(d.c, fl, d.length != "", [Num(n)] + rest) == Some(Print(item, rest)) && item.numeric
    ensures Shows(d, n, value) && item.prefix == PrefixOf(d, value) && IsNumeral(item.data, BaseOf(d))
    ensures var digits := Repeat(ZeroCount(item, fl, d.Width(), d.Precision()), '0') + item.data;
            value == if IsSigned(d) then ReadSigned(item.prefix, digits)
                     else ReadDigits(digits, if d.c == 'u' then 10 else 16)
  {
    hide ReadDigits, ReadSigned, ZeroCount, Repeat, IsNumeral, Spec.Width, Spec.Precision, ConvertSigned;
    if IsSigned(d) {
      item, value := SignedConversion(fl, d.length != "", n, rest, d.Width(), d.Precision());
    } else {
      item := UnsignedConversion(d.c, fl, d.length != "", n, rest, d.Width(), d.Precision());
      value := n % Modulus(d);
    }
  }

  /** The parts of an integer, in order, and how many spaces and zeros there are. */
  lemma PartsPrinted(item: Item, fl: Flags, d: Spec) returns (l: nat, r: nat)
    requires d.Valid() && FlagsOf(fl, d.flags) && item.numeric
    ensures var z := ZeroCount(item, fl, d.Width(), d.Precision());
            && Layout(item, fl, d.Width(), d.Precision())
               == Repeat(l, ' ') + item.prefix + Repeat(z, '0') + item.data + Repeat(r, ' ')
            && Padding(d, |item.prefix| + z + |item.data|, Repeat(l, ' '), Repeat(r, ' '))
            && (if d.point then z + |item.data| == Max(d.Precision(), |item.data|)
                else if '0' in d.flags && '-' !in d.flags then Repeat(l, ' ') == ""
                else z == 0)
  {
    hide Layout, ZeroCount, Repeat, Spec.Valid, Spec.Width, Spec.Precision;
    PrecisionRange(d);
    var w, p := d.Width(), d.Precision();
    l, r := LayoutShape(item, fl, w, p);
    Repeated(l, ' ');
    Repeated(r, ' ');
    Repeated(ZeroCount(item, fl, w, p), '0');
    NoZeros(item, fl, w, p);
    assert item.data[..|item.data|] == item.data;
  }

  lemma PrecisionRange(d: Spec)
    requires d.Valid()
    ensures (d.Precision() >= 0 <==> d.point) && d.Precision() >= -1
  {
  }

  lemma Repeated(n: nat, c: char)
    ensures |Repeat(n, c)| == n && AllOf(Repeat(n, c), c)
  {
  }

  lemma NoZeros(item: Item, fl: Flags, width: int, precision: int)
    ensures item.numeric && precision < 0 && !(fl.zero && !fl.left) ==> ZeroCount(item, fl, width, precision) == 0
  {
  }

  // ------------------------------------------------------------------- strings

  /** How many characters of a text a precision lets through. */
  function Cut(d: Spec, n: nat): nat
    requires d.Valid()
  {
    if d.point && d.Precision() < n then d.Precision() else n
  }

  /** What `%s`, `%c` and unknown characters print: the string, the character, the
      character itself (`%` at the end of the format); at most as many characters as
      the precision, in spaces up to the width, and never zeros. */
  lemma TextDirective(f: CString, i: nat, d: Spec, args: seq<Arg>, color: int, text: CString, rest: seq<Arg>)
    returns (left: string, right: string)
    requires Stands(f, i, d) && d.Valid() && i <= |f|
    requires
      || (d.c == 's' && args != [] && args[0] == Str(text) && rest == args[1..])
      || (d.c == 'c' && args != [] && args[0].Num? && rest == args[1..]
          && text == if args[0].n % 256 == 0 then "" else [(args[0].n % 256) as char])
      || (d.c !in {'d', 'i', 'u', 'x', 'X', 'p', 's', 'C', 'c'} && rest == args
          && text == [if d.c == '\0' then '%' else d.c])
    ensures Directive(f, i, d.Args() + args, color)
         == Some(Outcome(i + |d.Text()|, rest, color, Colored(left + text[..Cut(d, |text|)] + right, color)))
    ensures Padding(d, Cut(d, |text|), left, right)
  {
    hide Stands, Directive, ReadDigits, Layout, Colored, ZeroCount, Repeat, Spec.Width, Spec.Precision, DataLength;
    var fl := DirectiveMeaning(f, i, d, args, color);
    PrecisionRange(d);
    TextConversion(d.c, fl, d.length != "", args, text, rest);
    var item := Item("", text, false);
    var l, r := LayoutShape(item, fl, d.Width(), d.Precision());
    CutLength(item, d);
    Repeated(l, ' ');
    Repeated(r, ' ');
    left, right := Repeat(l, ' '), Repeat(r, ' ');
    NothingBetween(left, text[..Cut(d, |text|)], right);
  }

  lemma TextConversion(c: char, fl: Flags, long: bool, args: seq<Arg>, text: CString, rest: seq<Arg>)
    requires
      || (c == 's' && args != [] && args[0] == Str(text) && rest == args[1..])
      || (c == 'c' && args != [] && args[0].Num? && rest == args[1..]
          && text == if args[0].n % 256 == 0 then "" else [(args[0].n % 256) as char])
      || (c !in {'d', 'i', 'u', 'x', 'X', 'p', 's', 'C', 'c'} && text == [if c == '\0' then '%' else c] && rest == args)
    ensures Convert(c, fl, long, args) == Some(Print(Item("", text, false), rest))
  {
  }

  lemma CutLength(item: Item, d: Spec)
    requires d.Valid() && !item.numeric
    ensures DataLength(item, d.Precision()) == Cut(d, |item.data|)
  {
    PrecisionRange(d);
    hide Spec.Precision;
  }

  lemma NothingBetween(a: string, b: string, c: string)
    ensures a + "" + Repeat(0, '0') + b + c == a + b + c
  {
  }

  /** `%C` prints nothing and sets the color to its argument. */
  lemma ColorDirective(f: CString, i: nat, d: Spec, n: int, rest: seq<Arg>, color: int)
    requires Stands(f, i, d) && d.Valid() && i <= |f| && d.c == 'C' && -0x8000_0000 <= n < 0x8000_0000
    ensures Directive(f, i, d.Args() + ([Num(n)] + rest), color) == Some(Outcome(i + |d.Text()|, rest, n, []))
  {
    hide *;
    var fl := DirectiveMeaning(f, i, d, [Num(n)] + rest, color);
    ColorConversion(fl, d.length != "", n, rest);
  }

  lemma ColorConversion(fl: Flags, long: bool, n: int, rest: seq<Arg>)
    requires -0x8000_0000 <= n < 0x8000_0000
    ensures Convert('C', fl, long, [Num(n)] + rest) == Some(Recolor(n, rest))
  {
    var args := [Num(n)] + rest;
    assert args[1..] == rest;
    SignedInRange(n, INT);
    hide Signed;
  }

  // ------------------------------------------------------------- whole formats

  /** Text without a `%` is printed as it is. */
  lemma {:induction false} PlainText(f: CString, i: nat, j: nat, args: seq<Arg>, color: int)
    requires i <= j <= |f| && forall k :: i <= k < j ==> f[k] != '%'
    ensures Format(f, i, args, color).Some? <==> Format(f, j, args, color).Some?
    ensures Format(f, j, args, color).Some? ==>
              Format(f, i, args, color).value == Colored(f[i..j], color) + Format(f, j, args, color).value
    decreases j - i
  {
    hide Directive;
    if i == j {
      assert Colored(f[i..j], color) == [];
    } else {
      PlainText(f, i + 1, j, args, color);
      assert Colored(f[i..j], color) == [Put(f[i], color)] + Colored(f[i + 1..j], color);
    }
  }

  /** A directive prints what it prints, and the rest goes on after it with the
      arguments and the color it leaves. */
  lemma ThenDirective(f: CString, i: nat, args: seq<Arg>, color: int, o: Outcome)
    requires i < |f| && f[i] == '%' && Directive(f, i + 1, args, color) == Some(o)
    ensures Format(f, i, args, color).Some? <==> Format(f, o.i, o.args, o.color).Some?
    ensures Format(f, i, args, color).Some? ==>
              Format(f, i, args, color).value == o.out + Format(f, o.i, o.args, o.color).value
  {
    hide Directive;
  }
}

/**
 * Formatter: the library's vsnprintf (userspace/lib/libc/vsnprintf.c), which
 * renders a format and its arguments into a bounded buffer. To justify a
 * field to the right it first writes the field without storing anything, to
 * learn its length, and then goes back and writes it again.
 *
 * `Formatted` is the complete rendering, whatever the size of the buffer.
 */
module Formatter {
  import opened Numerals
  import opened Options

  // ---- Arguments

  datatype Length = Plain | HH | H | L | LL | J | Z

  datatype Spec = Spec(
    plus: bool, minus: bool, zero: bool, space: bool, hash: bool,
    width: int, prec: int, length: Length, conversion: char)

  /**
   * An argument of the call: the number it is when the format asks for one
   * and the string it points to when the format asks for that, None being the
   * null pointer.
   */
  datatype Argument = Argument(number: int, text: Option<string>)

  type Arguments = nat -> Argument

  const WORD := 0x1_0000_0000
  const LONG_WORD := 0x1_0000_0000_0000_0000

  function Unsigned(v: int, modulus: nat): nat
    requires 0 < modulus
  {
    v % modulus
  }

  function Signed(v: int, modulus: nat): int
    requires 0 < modulus
  {
    (v + modulus / 2) % modulus - modulus / 2
  }

  predicate Long(length: Length)
  {
    length == LL || length == J
  }

  function SignedArgument(spec: Spec, a: Argument): (v: int)
    ensures -LONG_WORD / 2 <= v < LONG_WORD
  {
    if Long(spec.length) then Signed(a.number, LONG_WORD)
    else if spec.length == Z then Unsigned(a.number, WORD)
    else Signed(a.number, WORD)
  }

  function UnsignedArgument(spec: Spec, a: Argument): (v: nat)
    ensures v < LONG_WORD
  {
    if Long(spec.length) then Unsigned(a.number, LONG_WORD) else Unsigned(a.number, WORD)
  }

  function ArgumentSize(spec: Spec): (size: nat)
    ensures size in {1, 2, 4, 8}
  {
    if spec.conversion == 'p' then 4
    else match spec.length
      case HH => 1
      case H => 2
      case LL => 8
      case J => 8
      case _ => 4
  }

  // ---- Rendering

  function Repeated(c: char, n: int): (s: string)
    ensures |s| == if n < 0 then 0 else n
    ensures forall i :: 0 <= i < |s| ==> s[i] == c
  {
    if n <= 0 then "" else Repeated(c, n - 1) + [c]
  }

  function Power(base: nat, n: nat): (p: nat)
    requires 0 < base
    ensures 0 < p
  {
    if n == 0 then 1 else PositiveProduct(base, Power(base, n - 1)); base * Power(base, n - 1)
  }

  lemma PositiveProduct(a: nat, b: nat)
    requires 0 < a && 0 < b
    ensures 0 < a * b
  {
  }

  function Digits(spec: Spec): int
  {
    if spec.prec < 1 then 1 else spec.prec
  }

  /** Unsigned decimal output is of the argument reduced to its own size. */
  function Reduced(size: nat, v: nat): (r: nat)
    ensures r <= v
    ensures size == 4 ==> r < 4294967296
    ensures size == 2 ==> r < 65536
    ensures size !in {2, 4, 8} ==> r < 256
  {
    if size == 8 then v
    else if size == 4 then v % 4294967296
    else if size == 2 then v % 65536
    else v % 256
  }

  function DecimalText(spec: Spec, v: nat): string
  {
    Shown(10, Reduced(ArgumentSize(spec), v), Digits(spec), false)
  }

  function Sign(spec: Spec, v: int): string
  {
    if v < 0 then "-" else if spec.plus then "+" else if spec.space then " " else ""
  }

  function Magnitude(v: int): nat
  {
    if v < 0 then -v else v
  }

  function SignedText(spec: Spec, v: int): string
  {
    Sign(spec, v) + DecimalText(spec, Magnitude(v))
  }

  function OctalPlaces(spec: Spec): (n: nat)
    ensures n in {3, 6, 11, 22}
  {
    (8 * ArgumentSize(spec) + 2) / 3
  }

  /** Pointers are written with all their digits. */
  function LeastDigits(spec: Spec, places: nat): int
  {
    if spec.conversion == 'p' then places else Digits(spec)
  }

  predicate Prefixed(spec: Spec, v: nat)
  {
    spec.hash && (v != 0 || spec.conversion == 'p')
  }

  /** Octal and hexadecimal output is of the argument reduced to the digits that its size needs. */
  function OctalText(spec: Spec, v: nat): string
  {
    var places := OctalPlaces(spec);
    (if Prefixed(spec, v) then "0" else "")
    + Shown(8, v % Power(8, places), LeastDigits(spec, places), false)
  }

  function HexadecimalPlaces(spec: Spec): nat
  {
    2 * ArgumentSize(spec)
  }

  function HexadecimalPrefix(spec: Spec, v: nat): string
  {
    if Prefixed(spec, v) then "0x" else ""
  }

  function HexadecimalText(spec: Spec, v: nat): string
  {
    var places := HexadecimalPlaces(spec);
    HexadecimalPrefix(spec, v)
    + Shown(16, v % Power(16, places), LeastDigits(spec, places), spec.conversion == 'X')
  }

  /** The part of a string before its terminating NUL. */
  function CString(s: string, i: nat): (r: string)
    requires i <= |s|
    ensures |r| <= |s| - i && r == s[i..i + |r|]
    ensures forall k :: 0 <= k < |r| ==> r[k] != '\0'
    ensures i + |r| < |s| ==> s[i + |r|] == '\0'
    decreases |s| - i
  {
    if i == |s| || s[i] == '\0' then "" else [s[i]] + CString(s, i + 1)
  }

  function StringText(spec: Spec, s: string): string
  {
    var t := CString(s, 0);
    if 0 <= spec.prec < |t| then t[..spec.prec] else t
  }

  /** Writing a string character by character, and when to stop. */
  lemma StringStep(spec: Spec, s: string, i: nat)
    requires i <= |CString(s, 0)|
    ensures At(s, i) != '\0' ==> i < |CString(s, 0)| && CString(s, 0)[..i + 1] == CString(s, 0)[..i] + [s[i]]
    ensures (At(s, i) == '\0' && (0 <= spec.prec ==> i <= spec.prec)) || i == spec.prec
      ==> CString(s, 0)[..i] == StringText(spec, s)
  {
    var whole := CString(s, 0);
    if i < |whole| {
      assert whole[i] == s[i];
    } else {
      assert whole[..i] == whole;
    }
  }

  /** What the conversions that may be justified write. */
  datatype Body =
    | SignedBody(i: int)
    | OctalBody(v: nat)
    | DecimalBody(v: nat)
    | HexadecimalBody(v: nat)
    | StringBody(s: string)

  function BodyText(spec: Spec, body: Body): string
  {
    match body
    case SignedBody(i) => SignedText(spec, i)
    case OctalBody(v) => OctalText(spec, v)
    case DecimalBody(v) => DecimalText(spec, v)
    case HexadecimalBody(v) => HexadecimalText(spec, v)
    case StringBody(s) => StringText(spec, s)
  }

  predicate RightJustified(spec: Spec)
  {
    spec.width > 0 && !spec.minus
  }

  predicate LeftJustified(spec: Spec)
  {
    spec.width > 0 && spec.minus
  }

  function PadChar(spec: Spec): char
  {
    if spec.prec < 0 && spec.zero then '0' else ' '
  }

  function Field(spec: Spec, text: string): string
  {
    if RightJustified(spec) then Repeated(PadChar(spec), spec.width - |text|) + text
    else if LeftJustified(spec) then text + Repeated(' ', spec.width - |text|)
    else text
  }

  function BodyOf(spec: Spec, a: Argument): Option<Body>
  {
    match spec.conversion
    case 'i' => Some(SignedBody(SignedArgument(spec, a)))
    case 'd' => Some(SignedBody(SignedArgument(spec, a)))
    case 'o' => Some(OctalBody(UnsignedArgument(spec, a)))
    case 'u' => Some(DecimalBody(UnsignedArgument(spec, a)))
    case 'x' => Some(HexadecimalBody(UnsignedArgument(spec, a)))
    case 'X' => Some(HexadecimalBody(UnsignedArgument(spec, a)))
    case 's' => Some(StringBody(match a.text case None => "(null)" case Some(t) => t))
    case 'p' => Some(HexadecimalBody(Unsigned(a.number, WORD)))
    case _ => None
  }

  predicate TakesArgument(spec: Spec)
  {
    spec.conversion in {'i', 'd', 'o', 'u', 'x', 'X', 's', 'p', 'c'}
  }

  function Converted(spec: Spec, a: Argument): string
  {
    if spec.conversion == 'c' then Field(spec, [Unsigned(a.number, 256) as char])
    else if spec.conversion == '%' then "%"
    else match BodyOf(spec, a)
      case Some(body) => Field(spec, BodyText(spec, body))
      case None => ""
  }

  // ---- Parsing

  function At(format: string, i: nat): char
  {
    if i < |format| then format[i] else '\0'
  }

  /** The position after i; the end of the format is never passed. */
  function After(format: string, i: nat): (j: nat)
    ensures At(format, i) != '\0' ==> i < |format| && j == i + 1
    ensures i <= |format| ==> i <= j <= |format|
  {
    if At(format, i) != '\0' then i + 1 else i
  }

  predicate IsFlag(c: char)
  {
    c in {'-', '+', ' ', '#', '0'}
  }

  function FlagsEnd(format: string, i: nat): (e: nat)
    requires i <= |format|
    ensures i <= e <= |format|
    ensures forall k :: i <= k < e ==> IsFlag(format[k])
    ensures !IsFlag(At(format, e))
    decreases |format| - i
  {
    if IsFlag(At(format, i)) then FlagsEnd(format, i + 1) else i
  }

  /** The number at i, if digits start there, else none of its digits. */
  function NumericAt(format: string, i: nat): int
    requires i <= |format|
  {
    Denotes(10, format[i..RunEnd(10, format, i, true)])
  }

  /**
   * Where parsing stands: the specification so far, the position in the
   * format and the number of arguments taken.
   */
  datatype Parse = Parse(spec: Spec, pos: nat, taken: nat)

  const BLANK := Spec(false, false, false, false, false, -1, -1, Plain, '\0')

  function Flags(format: string, i: nat, taken: nat): (p: Parse)
    requires i <= |format|
    ensures i <= p.pos <= |format|
  {
    var e := FlagsEnd(format, i);
    var f := format[i..e];
    Parse(BLANK.(plus := '+' in f, minus := '-' in f, zero := '0' in f, space := ' ' in f, hash := '#' in f),
          e, taken)
  }

  function FieldWidth(format: string, args: Arguments, p: Parse): (q: Parse)
    requires p.pos <= |format|
    ensures p.pos <= q.pos <= |format|
  {
    if At(format, p.pos) == '*' then
      Parse(p.spec.(width := Signed(args(p.taken).number, WORD)), p.pos + 1, p.taken + 1)
    else if IsDigit(10, At(format, p.pos)) then
      Parse(p.spec.(width := NumericAt(format, p.pos)), RunEnd(10, format, p.pos, true), p.taken)
    else p
  }

  function Precision(format: string, args: Arguments, p: Parse): (q: Parse)
    requires p.pos <= |format|
    ensures p.pos <= q.pos <= |format|
  {
    if At(format, p.pos) != '.' then p
    else if At(format, p.pos + 1) == '*' then
      var prec := Signed(args(p.taken).number, WORD);
      if prec < 0 then Parse(p.spec.(prec := -prec, minus := true), p.pos + 2, p.taken + 1)
      else Parse(p.spec.(prec := prec), p.pos + 2, p.taken + 1)
    else
      Parse(p.spec.(prec := NumericAt(format, p.pos + 1)), RunEnd(10, format, p.pos + 1, true), p.taken)
  }

  function LengthModifier(format: string, p: Parse): (q: Parse)
    requires p.pos <= |format|
    ensures p.pos <= q.pos <= |format|
  {
    var twice := At(format, p.pos + 1) == At(format, p.pos);
    match At(format, p.pos)
    case 'h' => if twice then Parse(p.spec.(length := HH), p.pos + 2, p.taken)
                else Parse(p.spec.(length := H), p.pos + 1, p.taken)
    case 'l' => if twice then Parse(p.spec.(length := LL), p.pos + 2, p.taken)
                else Parse(p.spec.(length := L), p.pos + 1, p.taken)
    case 'j' => Parse(p.spec.(length := J), p.pos + 1, p.taken)
    case 'z' => Parse(p.spec.(length := Z), p.pos + 1, p.taken)
    case _ => p
  }

  function Conversion(format: string, p: Parse): (q: Parse)
    requires p.pos <= |format|
    ensures p.pos <= q.pos <= |format|
  {
    Parse(p.spec.(conversion := At(format, p.pos)), After(format, p.pos), p.taken)
  }

  function Directive(format: string, args: Arguments, i: nat, taken: nat): (p: Parse)
    requires i <= |format|
    ensures i <= p.pos <= |format|
  {
    Conversion(format, LengthModifier(format, Precision(format, args, FieldWidth(format, args, Flags(format, i, taken)))))
  }

  function ArgumentsAfter(p: Parse): nat
  {
    if TakesArgument(p.spec) then p.taken + 1 else p.taken
  }

  /**
   * One literal character or directive: what it renders to, and where it
   * leaves the format and the arguments.
   */
  datatype Turn = Turn(text: string, pos: nat, taken: nat)

  function TurnAt(format: string, args: Arguments, i: nat, taken: nat): (t: Turn)
    requires At(format, i) != '\0'
    ensures i < t.pos <= |format|
  {
    if At(format, i) != '%' then Turn([At(format, i)], i + 1, taken)
    else if At(format, i + 1) == '%' then Turn("%", i + 2, taken)
    else
      var p := Directive(format, args, i + 1, taken);
      Turn(Converted(p.spec, args(p.taken)), p.pos, ArgumentsAfter(p))
  }

  /** The rendering of the format from position i on, with `taken` arguments used up before it. */
  function Formatted(format: string, args: Arguments, i: nat, taken: nat): string
    requires i <= |format|
    decreases |format| - i
  {
    if At(format, i) == '\0' then ""
    else
      var t := TurnAt(format, args, i, taken);
      t.text + Formatted(format, args, t.pos, t.taken)
  }

  // ---- One digit at a time

  /** Dividing by p and then by the base is dividing by their product. */
  lemma Regrouped(v: nat, p: nat, base: nat)
    requires 0 < p && 0 < base
    ensures 0 < base * p
    ensures v / (base * p) == v / p / base
    ensures v % (base * p) == p * (v / p % base) + v % p
  {
    var q, d, e := v / p / base, v / p % base, v % p;
    Divided(v, p);
    Divided(v / p, base);
    assert v == (base * p) * q + (p * d + e) by { Regroup(p, base, q, d, e); }
    assert p * base == base * p;
    Within(p, d, base, e);
    QuotientOf(base * p, q, p * d + e);
  }

  lemma Regroup(p: nat, base: nat, q: nat, d: nat, e: nat)
    ensures p * (base * q + d) + e == (base * p) * q + (p * d + e)
  {
    assert p * (base * q) == (base * p) * q;
  }

  lemma DividedAgain(v: nat, base: nat, n: nat)
    requires 0 < base
    ensures v / Power(base, n + 1) == v / Power(base, n) / base
  {
    Regrouped(v, Power(base, n), base);
  }

  lemma Within(p: nat, d: nat, base: nat, e: nat)
    requires d < base && e < p
    ensures p * d + e < p * base
  {
    assert p * base == p * d + p * (base - d);
    TimesAtLeast(p, base - d - 1);
  }

  /** The low n + 1 digits of x are its lowest digit below the low n digits of the rest. */
  lemma LowDigits(x: nat, base: nat, n: nat)
    requires 0 < base
    ensures x % Power(base, n + 1) == base * (x / base % Power(base, n)) + x % base
  {
    var p := Power(base, n);
    Divided(x, base);
    Divided(x / base, p);
    var q, m, d := x / base / p, x / base % p, x % base;
    calc {
      x;
      base * (p * q + m) + d;
      (base * p) * q + (base * m + d);
    }
    Within(base, m, p, d);
    QuotientOf(base * p, q, base * m + d);
  }

  /** One more digit of a numeral written so far. */
  lemma ShownGrows(base: nat, high: nat, d: nat, least: int, upper: bool)
    requires 2 <= base <= 16 && d < base
    ensures Shown(base, base * high + d, least + 1, upper)
      == if high == 0 && d == 0 && least + 1 <= 0 then "" else Shown(base, high, least, upper) + [DigitChar(d, upper)]
  {
    QuotientOf(base, high, d);
    TimesAtLeast(base, high);
    if high == 0 && d == 0 && least + 1 <= 0 {
      assert base * high + d == 0;
    } else {
      assert base * high + d != 0 || least + 1 > 0;
    }
  }

  lemma {:induction false} ShownZeros(base: nat, least: int, upper: bool)
    requires 2 <= base <= 16
    ensures Shown(base, 0, least, upper) == Repeated('0', least)
    decreases if least < 0 then 0 else least
  {
    if least > 0 { ShownZeros(base, least - 1, upper); }
  }

  /** The high digits of v among its low `places` digits, all but the last k. */
  function High(base: nat, v: nat, places: nat, k: nat): nat
    requires 0 < base && k <= places
  {
    v / Power(base, k) % Power(base, places - k)
  }

  lemma HighGrows(base: nat, v: nat, places: nat, k: nat)
    requires 0 < base && 0 < k <= places
    ensures High(base, v, places, k - 1) == base * High(base, v, places, k) + v / Power(base, k - 1) % base
  {
    DividedAgain(v, base, k - 1);
    LowDigits(v / Power(base, k - 1), base, places - k);
  }

  /** The digit of v that k - 1 others follow. */
  function DigitAt(base: nat, v: nat, k: nat): (d: nat)
    requires 0 < base && 0 < k
    ensures d < base
  {
    v / Power(base, k - 1) % base
  }

  /** What is written when the last k digits are still to come. */
  function Written(base: nat, v: nat, places: nat, k: nat, least: int, upper: bool): string
    requires 2 <= base <= 16 && k <= places
  {
    Shown(base, High(base, v, places, k), least - k, upper)
  }

  /** No digit was needed before the last k. */
  predicate Leading(base: nat, v: nat, places: nat, k: nat, least: int)
    requires 0 < base && k <= places
  {
    High(base, v, places, k) == 0 && least <= k
  }

  lemma WrittenGrows(base: nat, v: nat, places: nat, k: nat, least: int, upper: bool)
    requires 2 <= base <= 16 && 0 < k <= places
    ensures var d := DigitAt(base, v, k);
      && (Leading(base, v, places, k - 1, least) <==>
            High(base, v, places, k) == 0 && d == 0 && !(k <= least))
      && Written(base, v, places, k - 1, least, upper) == Written(base, v, places, k, least, upper)
           + if Leading(base, v, places, k - 1, least) then "" else [DigitChar(d, upper)]
  {
    var high, d := High(base, v, places, k), DigitAt(base, v, k);
    HighGrows(base, v, places, k);
    ShownGrows(base, high, d, least - k, upper);
    TimesAtLeast(base, high);
  }

  lemma WrittenEnds(base: nat, v: nat, places: nat, least: int, upper: bool)
    requires 2 <= base <= 16
    ensures High(base, v, places, places) == 0
    ensures Written(base, v, places, places, least, upper) == Repeated('0', least - places)
    ensures Written(base, v, places, 0, least, upper) == Shown(base, v % Power(base, places), least, upper)
  {
    ShownZeros(base, least - places, upper);
  }

  /** The last k digits of v, split after the first of them. */
  lemma RestDigit(v: nat, k: nat)
    requires 0 < k
    ensures var p, rest, d := Power(10, k - 1), v % Power(10, k), DigitAt(10, v, k);
      rest / p == d && rest - d * p == v % p
  {
    var p := Power(10, k - 1);
    Regrouped(v, p, 10);
    QuotientOf(p, v / p % 10, v % p);
  }

  lemma PowerShrinks(k: nat)
    requires 1 < k
    ensures Power(10, k - 1) / 10 == Power(10, k - 2)
  {
    QuotientOf(10, Power(10, k - 2), 0);
  }

  /** One step down: the digit, what is left without it, and the next power. */
  method Divide(rest: nat, power: nat, ghost v: nat, ghost k: nat) returns (d: nat, left: nat, next: nat)
    requires 0 < k && rest == v % Power(10, k) && power == Power(10, k - 1)
    ensures d == DigitAt(10, v, k) && left == v % Power(10, k - 1) && (d == 0 ==> rest == left)
    ensures k > 1 ==> next == Power(10, k - 2)
  {
    RestDigit(v, k);
    if k > 1 { PowerShrinks(k); }
    d := rest / power;
    left := rest - d * power;
    next := power / 10;
  }

  function DecimalPlaces(size: nat): nat
  {
    if size == 8 then 20 else if size == 4 then 10 else if size == 2 then 5 else 3
  }

  lemma DecimalFits(size: nat, v: nat)
    requires v < LONG_WORD
    ensures Reduced(size, v) < Power(10, DecimalPlaces(size))
    ensures Power(10, 19) == 10000000000000000000
    ensures Power(10, 9) == 1000000000
    ensures Power(10, 4) == 10000
    ensures Power(10, 2) == 100
  {
    assert Power(10, 20) == 100000000000000000000;
    assert Power(10, 10) == 10000000000;
    assert Power(10, 5) == 100000;
    assert Power(10, 3) == 1000;
  }

  lemma SmallRemainder(v: nat, m: nat)
    requires v < m
    ensures v % m == v
  {
  }

  lemma {:induction false} FlagsUnique(format: string, i: nat, e: nat)
    requires i <= e <= |format|
    requires forall k :: i <= k < e ==> IsFlag(format[k])
    requires !IsFlag(At(format, e))
    ensures FlagsEnd(format, i) == e
    decreases e - i
  {
    if i < e { FlagsUnique(format, i + 1, e); }
  }

  lemma Associates(a: string, b: string, c: string)
    ensures (a + b) + c == a + (b + c)
  {
  }

  /** Written one after the other. */
  lemma Onto(o0: string, o1: string, o2: string, a: string, b: string)
    requires o1 == o0 + a && o2 == o1 + b
    ensures o2 == o0 + (a + b)
  {
    Associates(o0, a, b);
  }

  // ---- The state

  /**
   * What a buffer holds once `text` went to it: at most `limit` characters of
   * the text, then what it held before.
   */
  function Overlay(text: string, limit: nat, before: string): string
    requires limit <= |before|
  {
    if |text| <= limit then text + before[|text|..] else text[..limit] + before[limit..]
  }

  lemma OverlayGrows(text: string, limit: nat, before: string, c: char)
    requires limit < |before|
    ensures Overlay(text + [c], limit, before)
      == if |text| < limit then Overlay(text, limit, before)[|text| := c] else Overlay(text, limit, before)
  {
  }

  function Least(a: nat, b: nat): nat
  {
    if a < b then a else b
  }

  /** A NULL write pointer, with which output is counted but not stored. */
  const NOWHERE := -1

  datatype Position = Position(wrptr: int, len: nat)

  class State {
    const format: string
    const s: array?<char>
    const maxlen: nat
    var pos: nat
    var wrptr: int
    var len: nat
    ghost const before: string
    /** All the output, and the output that was not part of a dry run. */
    ghost var out: string
    ghost var live: string

    ghost predicate Valid()
      reads this, s
    {
      pos <= |format| && Buffered()
    }

    ghost predicate Buffered()
      reads this`wrptr, this`len, this`out, this`live, s
    {
      && len == |out|
      && (s == null ==> wrptr == NOWHERE)
      && (s != null ==> maxlen < s.Length == |before| && s[..] == Overlay(live, maxlen, before))
      && (wrptr != NOWHERE ==> live == out && wrptr == Least(len, maxlen))
    }

    /** What a writer does with its text, in a dry run or not. */
    twostate predicate Wrote(text: string)
      reads this
    {
      && out == old(out) + text
      && (wrptr == NOWHERE <==> old(wrptr) == NOWHERE)
      && (wrptr == NOWHERE ==> live == old(live))
    }

    constructor (buffer: array?<char>, n: nat, text: string)
      requires buffer != null ==> 0 < buffer.Length && n <= buffer.Length
      ensures Valid() && s == buffer && format == text && maxlen == (if n == 0 then 0 else n - 1)
      ensures pos == 0 && out == live == "" && (buffer != null ==> wrptr != NOWHERE && before == buffer[..])
    {
      format, s, pos, len := text, buffer, 0, 0;
      maxlen := if n == 0 then 0 else n - 1;
      wrptr := if buffer == null then NOWHERE else 0;
      before := if buffer == null then "" else buffer[..];
      out, live := "", "";
    }

    /** Nothing but the terminating NUL is stored elsewhere. */
    method WriteChar(c: char)
      requires Valid()
      modifies this`wrptr, this`len, this`out, this`live, s
      ensures Valid() && Wrote([c])
    {
      if s != null { OverlayGrows(live, maxlen, before, c); }
      if len < maxlen && wrptr != NOWHERE {
        s[wrptr] := c;
        assert s[..] == old(s[..])[wrptr := c];
        wrptr := wrptr + 1;
      }
      len := len + 1;
      out := out + [c];
      if wrptr != NOWHERE { live := out; }
    }

    method WriteRepeated(c: char, n: int)
      requires Valid()
      modifies this`wrptr, this`len, this`out, this`live, s
      ensures Valid() && Wrote(Repeated(c, n))
    {
      var i := 0;
      while i < n
        invariant 0 <= i && (i <= n || i == 0)
        invariant Valid() && Wrote(Repeated(c, i))
      {
        WriteChar(c);
        i := i + 1;
      }
      assert Repeated(c, i) == Repeated(c, n);
    }

    method WriteString(text: string, spec: Spec)
      requires Valid()
      modifies this`wrptr, this`len, this`out, this`live, s
      ensures Valid() && Wrote(StringText(spec, text))
    {
      ghost var whole := CString(text, 0);
      var start := len;
      var i: nat := 0;
      StringStep(spec, text, 0);
      while (spec.prec < 0 || len - start < spec.prec) && At(text, i) != '\0'
        invariant i <= |whole| && len == start + i && (spec.prec >= 0 ==> i <= spec.prec)
        invariant Valid() && Wrote(whole[..i])
        decreases |text| - i
      {
        StringStep(spec, text, i);
        WriteMore(text[i], true, old(out), whole[..i], whole[..i + 1]);
        i := i + 1;
      }
      StringStep(spec, text, i);
    }

    /** One character more, or none, of a text of which `before` has been written. */
    method WriteMore(c: char, wanted: bool, ghost start: string, ghost before: string, ghost after: string)
      requires Valid() && out == start + before && after == before + if wanted then [c] else ""
      modifies this`wrptr, this`len, this`out, this`live, s
      ensures Valid() && out == start + after && len == old(len) + if wanted then 1 else 0
      ensures (wrptr == NOWHERE <==> old(wrptr) == NOWHERE) && (wrptr == NOWHERE ==> live == old(live))
    {
      if wanted {
        ghost var o1 := out;
        WriteChar(c);
        Onto(start, o1, out, before, [c]);
      }
    }

    /** The digits of a value in a base that is a power of two, taken out of it by shifts and masks. */
    method WriteDigits(base: nat, value: nat, places: nat, least: int, upper: bool)
      requires Valid() && 2 <= base <= 16
      modifies this`wrptr, this`len, this`out, this`live, s
      ensures Valid() && Wrote(Shown(base, value % Power(base, places), least, upper))
    {
      WriteRepeated('0', least - places);
      WrittenEnds(base, value, places, least, upper);
      var nonzero := false;
      var k: nat := places;
      while k > 0
        invariant k <= places
        invariant nonzero || High(base, value, places, k) == 0
        invariant nonzero ==> !Leading(base, value, places, k, least)
        invariant Valid() && Wrote(Written(base, value, places, k, least, upper))
      {
        WrittenGrows(base, value, places, k, least, upper);
        var d := DigitAt(base, value, k);
        var wanted := nonzero || d != 0 || k <= least;
        WriteMore(DigitChar(d, upper), wanted, old(out),
                  Written(base, value, places, k, least, upper), Written(base, value, places, k - 1, least, upper));
        nonzero := wanted;
        k := k - 1;
      }
    }

    method WriteOctal(value: nat, spec: Spec)
      requires Valid()
      modifies this`wrptr, this`len, this`out, this`live, s
      ensures Valid() && Wrote(OctalText(spec, value))
    {
      var places := OctalPlaces(spec);
      ghost var digits := Shown(8, value % Power(8, places), LeastDigits(spec, places), false);
      if Prefixed(spec, value) {
        WriteChar('0');
        Associates(old(out), "0", digits);
      }
      WriteDigits(8, value, places, LeastDigits(spec, places), false);
    }

    method WriteHexadecimal(value: nat, spec: Spec)
      requires Valid()
      modifies this`wrptr, this`len, this`out, this`live, s
      ensures Valid() && Wrote(HexadecimalText(spec, value))
    {
      var places := HexadecimalPlaces(spec);
      var upper := spec.conversion == 'X';
      WritePrefix(value, spec);
      WriteDigits(16, value, places, LeastDigits(spec, places), upper);
      Associates(old(out), HexadecimalPrefix(spec, value),
                 Shown(16, value % Power(16, places), LeastDigits(spec, places), upper));
    }

    method WritePrefix(value: nat, spec: Spec)
      requires Valid()
      modifies this`wrptr, this`len, this`out, this`live, s
      ensures Valid() && Wrote(HexadecimalPrefix(spec, value))
    {
      if Prefixed(spec, value) {
        WriteChar('0');
        WriteChar('x');
      }
    }

    method WriteUnsigned(value: nat, spec: Spec)
      requires Valid() && value < LONG_WORD
      modifies this`wrptr, this`len, this`out, this`live, s
      ensures Valid() && Wrote(DecimalText(spec, value))
    {
      var size := ArgumentSize(spec);
      DecimalFits(size, value);
      var power, rest, k: nat;
      match size {
        case 8 => power, rest, k := 10000000000000000000, value, 20;
        case 4 => power, rest, k := 1000000000, value % 4294967296, 10;
        case 2 => power, rest, k := 10000, value % 65536, 5;
        case _ => power, rest, k := 100, value % 256, 3;
      }
      WriteRest(rest, power, k, Digits(spec));
    }

    method WriteRest(value: nat, first: nat, places: nat, least: int)
      requires Valid() && 0 < places && first == Power(10, places - 1) && value < Power(10, places)
      modifies this`wrptr, this`len, this`out, this`live, s
      ensures Valid() && Wrote(Shown(10, value, least, false))
    {
      WriteRepeated('0', least - places);
      WrittenEnds(10, value, places, least, false);
      SmallRemainder(value, Power(10, places));
      var nonzero := false;
      var power, rest, k: nat := first, value, places;
      while k > 0
        invariant k <= places
        invariant k > 0 ==> power == Power(10, k - 1)
        invariant rest == value % Power(10, k)
        invariant nonzero || High(10, value, places, k) == 0
        invariant nonzero ==> !Leading(10, value, places, k, least)
        invariant Valid() && Wrote(Written(10, value, places, k, least, false))
      {
        WrittenGrows(10, value, places, k, least, false);
        var d, left, next := Divide(rest, power, value, k);
        var wanted := nonzero || d != 0 || k <= least;
        WriteMore(DigitChar(d, false), wanted, old(out),
                  Written(10, value, places, k, least, false), Written(10, value, places, k - 1, least, false));
        if wanted {
          rest := left;
          nonzero := true;
        }
        power := next;
        k := k - 1;
      }
    }

    method WriteSigned(value: int, spec: Spec)
      requires Valid() && -LONG_WORD < value < LONG_WORD
      modifies this`wrptr, this`len, this`out, this`live, s
      ensures Valid() && Wrote(SignedText(spec, value))
    {
      if value < 0 {
        WriteChar('-');
      } else if spec.plus {
        WriteChar('+');
      } else if spec.space {
        WriteChar(' ');
      }
      assert Wrote(Sign(spec, value));
      WriteUnsigned(Magnitude(value), spec);
      Associates(old(out), Sign(spec, value), DecimalText(spec, Magnitude(value)));
    }

    // ---- Dry runs

    function Here(): Position
      reads this
    {
      Position(wrptr, len)
    }

    method StartDryRun()
      requires Valid()
      modifies this`wrptr
      ensures Valid() && wrptr == NOWHERE
    {
      wrptr := NOWHERE;
    }

    method GoBack(start: Position) returns (length: nat)
      requires Valid() && start.len <= len
      requires start.wrptr != NOWHERE ==>
                 s != null && live == out[..start.len] && start.wrptr == Least(start.len, maxlen)
      modifies this`wrptr, this`len, this`out
      ensures Valid() && Here() == start
      ensures length == old(len) - start.len && out == old(out)[..start.len]
    {
      length := len - start.len;
      len, wrptr := start.len, start.wrptr;
      out := out[..start.len];
    }

    method WriteBody(spec: Spec, body: Body)
      requires Valid() && Printable(body)
      modifies this`wrptr, this`len, this`out, this`live, s
      ensures Valid() && Wrote(BodyText(spec, body))
    {
      match body
      case SignedBody(i) => WriteSigned(i, spec);
      case OctalBody(v) => WriteOctal(v, spec);
      case DecimalBody(v) => WriteUnsigned(v, spec);
      case HexadecimalBody(v) => WriteHexadecimal(v, spec);
      case StringBody(t) => WriteString(t, spec);
    }

    method PadLeft(spec: Spec, length: nat)
      requires Valid()
      modifies this`wrptr, this`len, this`out, this`live, s
      ensures Valid() && Wrote(Repeated(PadChar(spec), spec.width - length))
    {
      if spec.width < length { return; }
      WriteRepeated(PadChar(spec), spec.width - length);
    }

    method PadRight(spec: Spec, length: nat)
      requires Valid()
      modifies this`wrptr, this`len, this`out, this`live, s
      ensures Valid() && Wrote(Repeated(' ', spec.width - length))
    {
      if spec.width < length { return; }
      WriteRepeated(' ', spec.width - length);
    }

    /** The length of a body, learned by writing it without storing it. */
    method Measure(spec: Spec, body: Body) returns (length: nat)
      requires Valid() && Printable(body)
      modifies this`wrptr, this`len, this`out, this`live, s
      ensures Valid() && Wrote("") && out == old(out)
      ensures length == |BodyText(spec, body)|
    {
      var start := Here();
      StartDryRun();
      WriteBody(spec, body);
      assert out[..start.len] == old(out);
      length := GoBack(start);
    }

    method WriteRight(spec: Spec, body: Body)
      requires Valid() && Printable(body)
      modifies this`wrptr, this`len, this`out, this`live, s
      ensures Valid()
      ensures var text := BodyText(spec, body); Wrote(Repeated(PadChar(spec), spec.width - |text|) + text)
    {
      var length := Measure(spec, body);
      PadAndWrite(spec, body, length);
    }

    method PadAndWrite(spec: Spec, body: Body, length: nat)
      requires Valid() && Printable(body)
      modifies this`wrptr, this`len, this`out, this`live, s
      ensures Valid() && Wrote(Repeated(PadChar(spec), spec.width - length) + BodyText(spec, body))
    {
      ghost var o0 := out;
      PadLeft(spec, length);
      ghost var o1 := out;
      WriteBody(spec, body);
      Onto(o0, o1, out, Repeated(PadChar(spec), spec.width - length), BodyText(spec, body));
    }

    method WriteLeft(spec: Spec, body: Body)
      requires Valid() && Printable(body)
      modifies this`wrptr, this`len, this`out, this`live, s
      ensures Valid()
      ensures var text := BodyText(spec, body); Wrote(text + Repeated(' ', spec.width - |text|))
    {
      ghost var text := BodyText(spec, body);
      var start := Here();
      WriteBody(spec, body);
      PadRight(spec, len - start.len);
      Associates(old(out), text, Repeated(' ', spec.width - |text|));
    }

    method Justify(spec: Spec, body: Body)
      requires Valid() && Printable(body)
      modifies this`wrptr, this`len, this`out, this`live, s
      ensures Valid() && Wrote(Field(spec, BodyText(spec, body)))
    {
      if RightJustified(spec) {
        WriteRight(spec, body);
      } else if LeftJustified(spec) {
        WriteLeft(spec, body);
      } else {
        WriteBody(spec, body);
      }
    }

    method ProcessConversion(spec: Spec, args: Arguments, taken: nat) returns (now: nat)
      requires Valid()
      modifies this`wrptr, this`len, this`out, this`live, s
      ensures Valid() && Wrote(Converted(spec, args(taken)))
      ensures now == if TakesArgument(spec) then taken + 1 else taken
    {
      now := if TakesArgument(spec) then taken + 1 else taken;
      if spec.conversion == 'c' {
        if RightJustified(spec) { PadLeft(spec, 1); }
        WriteChar(Unsigned(args(taken).number, 256) as char);
        if LeftJustified(spec) { PadRight(spec, 1); }
      } else if spec.conversion == '%' {
        WriteChar('%');
      } else {
        var body := BodyOf(spec, args(taken));
        if body.Some? { Justify(spec, body.value); }
      }
    }

    // ---- The format

    function Current(): char
      reads this
    {
      At(format, pos)
    }

    method Consume()
      requires pos <= |format|
      modifies this`pos
      ensures pos <= |format| && pos == After(format, old(pos))
    {
      if Current() != '\0' { pos := pos + 1; }
    }

    method ParseNumeric() returns (value: int)
      requires pos <= |format|
      modifies this`pos
      ensures pos <= |format| && pos == RunEnd(10, format, old(pos), true)
      ensures value == NumericAt(format, old(pos))
    {
      value := 0;
      while IsDigit(10, Current())
        invariant old(pos) <= pos <= |format|
        invariant forall k :: old(pos) <= k < pos ==> IsDigit(10, format[k])
        invariant value == Denotes(10, format[old(pos)..pos])
        decreases |format| - pos
      {
        OneMoreDenoted(10, format, old(pos), pos);
        value := 10 * value + DigitValue(Current());
        Consume();
      }
      RunUnique(10, format, old(pos), pos, true);
    }

    method ParseFlags() returns (spec: Spec)
      requires pos <= |format|
      modifies this`pos
      ensures pos <= |format|
      ensures forall taken :: Parse(spec, pos, taken) == Flags(format, old(pos), taken)
    {
      spec := BLANK;
      while IsFlag(Current())
        invariant old(pos) <= pos <= |format|
        invariant forall k :: old(pos) <= k < pos ==> IsFlag(format[k])
        invariant var f := format[old(pos)..pos];
          spec == BLANK.(plus := '+' in f, minus := '-' in f, zero := '0' in f, space := ' ' in f, hash := '#' in f)
        decreases |format| - pos
      {
        assert format[old(pos)..pos + 1] == format[old(pos)..pos] + [Current()];
        match Current() {
          case '-' => spec := spec.(minus := true);
          case '+' => spec := spec.(plus := true);
          case ' ' => spec := spec.(space := true);
          case '#' => spec := spec.(hash := true);
          case _ => spec := spec.(zero := true);
        }
        Consume();
      }
      FlagsUnique(format, old(pos), pos);
    }

    method ParseFieldWidth(spec: Spec, args: Arguments, taken: nat) returns (spec': Spec, taken': nat)
      requires pos <= |format|
      modifies this`pos
      ensures pos <= |format| && Parse(spec', pos, taken') == FieldWidth(format, args, Parse(spec, old(pos), taken))
    {
      spec', taken' := spec, taken;
      if Current() == '*' {
        Consume();
        spec', taken' := spec.(width := Signed(args(taken).number, WORD)), taken + 1;
      } else if IsDigit(10, Current()) {
        var width := ParseNumeric();
        spec' := spec.(width := width);
      }
    }

    method ParsePrecision(spec: Spec, args: Arguments, taken: nat) returns (spec': Spec, taken': nat)
      requires pos <= |format|
      modifies this`pos
      ensures pos <= |format| && Parse(spec', pos, taken') == Precision(format, args, Parse(spec, old(pos), taken))
    {
      spec', taken' := spec, taken;
      if Current() == '.' {
        Consume();
        if Current() == '*' {
          Consume();
          var prec := Signed(args(taken).number, WORD);
          taken' := taken + 1;
          spec' := if prec < 0 then spec.(prec := -prec, minus := true) else spec.(prec := prec);
        } else {
          var prec := ParseNumeric();
          spec' := spec.(prec := prec);
        }
      }
    }

    method ParseLengthModifier(spec: Spec) returns (spec': Spec)
      requires pos <= |format|
      modifies this`pos
      ensures pos <= |format|
      ensures forall taken :: Parse(spec', pos, taken) == LengthModifier(format, Parse(spec, old(pos), taken))
    {
      spec' := spec;
      match Current() {
        case 'h' =>
          spec' := spec.(length := H);
          Consume();
          if Current() == 'h' {
            spec' := spec.(length := HH);
            Consume();
          }
        case 'l' =>
          spec' := spec.(length := L);
          Consume();
          if Current() == 'l' {
            spec' := spec.(length := LL);
            Consume();
          }
        case 'j' =>
          spec' := spec.(length := J);
          Consume();
        case 'z' =>
          spec' := spec.(length := Z);
          Consume();
        case _ =>
      }
    }

    method ParseDirective(args: Arguments, taken: nat) returns (spec: Spec, taken': nat)
      requires pos <= |format|
      modifies this`pos
      ensures pos <= |format| && Parse(spec, pos, taken') == Directive(format, args, old(pos), taken)
    {
      spec := ParseFlags();
      assert Parse(spec, pos, taken) == Flags(format, old(pos), taken);
      spec, taken' := ParseFieldWidth(spec, args, taken);
      spec, taken' := ParsePrecision(spec, args, taken');
      ghost var p := Parse(spec, pos, taken');
      spec := ParseLengthModifier(spec);
      assert Parse(spec, pos, taken') == LengthModifier(format, p);
      spec := spec.(conversion := Current());
      Consume();
    }

    /** One round of the main loop. */
    method Proceed(args: Arguments, taken: nat) returns (now: nat)
      requires Valid() && Current() != '\0'
      modifies this`pos, this`wrptr, this`len, this`out, this`live, s
      ensures Valid()
      ensures var t := TurnAt(format, args, old(pos), taken);
        Wrote(t.text) && pos == t.pos && now == t.taken
    {
      now := taken;
      if Current() != '%' {
        WriteChar(Current());
        Consume();
        return;
      }
      Consume();
      if Current() == '%' {
        WriteChar('%');
        Consume();
        return;
      }
      var spec;
      spec, now := ParseDirective(args, taken);
      now := ProcessConversion(spec, args, now);
    }

    method Render(args: Arguments)
      requires Valid() && pos == 0 && out == ""
      modifies this`pos, this`wrptr, this`len, this`out, this`live, s
      ensures Valid() && out == Formatted(format, args, 0, 0)
      ensures wrptr == NOWHERE <==> old(wrptr) == NOWHERE
    {
      var taken := 0;
      ghost var rest := Formatted(format, args, 0, 0);
      while Current() != '\0'
        invariant Valid() && (wrptr == NOWHERE <==> old(wrptr) == NOWHERE)
        invariant rest == Formatted(format, args, pos, taken)
        invariant out + rest == Formatted(format, args, 0, 0)
        decreases |format| - pos
      {
        ghost var t := TurnAt(format, args, pos, taken);
        Associates(out, t.text, Formatted(format, args, t.pos, t.taken));
        taken := Proceed(args, taken);
        rest := Formatted(format, args, pos, taken);
      }
    }

    method TerminateString()
      requires Valid() && (s != null ==> wrptr != NOWHERE)
      modifies s
      ensures s != null ==>
        var kept := Least(|out|, maxlen);
        s[..] == out[..kept] + ['\0'] + before[kept + 1..]
    {
      if wrptr != NOWHERE {
        s[wrptr] := '\0';
      }
    }
  }

  predicate Printable(body: Body)
  {
    match body
    case SignedBody(i) => -LONG_WORD < i < LONG_WORD
    case DecimalBody(v) => v < LONG_WORD
    case _ => true
  }

  /**
   * For every format, arguments and size of buffer, what is returned is the
   * length of the complete rendering, and the buffer holds as much of the
   * rendering as fits, a NUL after it and what it held before from there on.
   * A size of zero still has the NUL stored: that is the one case in which a
   * character past the size is written.
   */
  method Vsnprintf(s: array?<char>, n: nat, format: string, args: Arguments) returns (r: nat)
    requires s != null ==> 0 < s.Length && n <= s.Length
    modifies s
    ensures r == |Formatted(format, args, 0, 0)|
    ensures s != null ==>
      var kept := Least(r, if n == 0 then 0 else n - 1);
      s[..] == Formatted(format, args, 0, 0)[..kept] + ['\0'] + old(s[..])[kept + 1..]
  {
    var state := new State(s, n, format);
    state.Render(args);
    state.TerminateString();
    r := state.len;
  }

  // ---- What is rendered

  /** Text with no directive in it is rendered as it stands. */
  lemma {:induction false} LiteralText(format: string, args: Arguments, i: nat, taken: nat)
    requires i <= |format|
    requires forall k :: i <= k < |format| ==> format[k] != '%' && format[k] != '\0'
    ensures Formatted(format, args, i, taken) == format[i..]
    decreases |format| - i
  {
    if i < |format| { LiteralText(format, args, i + 1, taken); }
  }

  /** A field is as wide as asked, or as its text when that is wider. */
  lemma FieldLength(spec: Spec, text: string)
    ensures |Field(spec, text)| == if spec.width > |text| then spec.width else |text|
  {
  }

  lemma {:induction false} ZerosDenote(base: nat, n: nat, t: string, k: nat)
    requires k <= |t|
    ensures Denoted(base, Repeated('0', n) + t, n + k) == Denoted(base, t, k)
    decreases k, n
  {
    if k > 0 {
      ZerosDenote(base, n, t, k - 1);
      assert (Repeated('0', n) + t)[n + k - 1] == t[k - 1];
    } else if n > 0 {
      ZerosDenote(base, n - 1, t, 0);
      DenotedAlike(base, Repeated('0', n) + t, Repeated('0', n - 1) + t, n - 1);
      assert base * Denoted(base, Repeated('0', n) + t, n - 1) == 0;
    }
  }

  /** Zeros in front of a numeral change neither its digits nor its value. */
  lemma LeadingZeros(base: nat, n: int, t: string)
    requires 2 <= base <= 16 && AllDigits(base, t)
    ensures AllDigits(base, Repeated('0', n) + t)
    ensures Denotes(base, Repeated('0', n) + t) == Denotes(base, t)
  {
    if n < 0 {
      assert Repeated('0', n) + t == t;
    } else {
      ZerosDenote(base, n, t, |t|);
    }
  }

  lemma NumeralWritten(base: nat, v: nat, least: int, upper: bool)
    requires 2 <= base <= 16 && 1 <= least
    ensures var s := Shown(base, v, least, upper); |s| >= 1 && AllDigits(base, s) && Denotes(base, s) == v
  {
    ShownDenotes(base, v, least, upper);
  }

  /**
   * A field of unsigned decimal output is accepted as the value of an option,
   * and then as the argument that was written, exactly when it has at most
   * nine characters and no space was needed to pad it.
   */
  lemma DecimalReadBack(spec: Spec, v: nat)
    ensures var text := DecimalText(spec, v);
      var read := MatchedInteger(Field(spec, text));
      var padded := spec.width > |text|;
      && (read.Some? <==> |Field(spec, text)| <= 9 && (padded ==> !spec.minus && spec.zero && spec.prec < 0))
      && (read.Some? ==> read.value == Reduced(ArgumentSize(spec), v))
  {
    var text := DecimalText(spec, v);
    var n := spec.width - |text|;
    NumeralWritten(10, Reduced(ArgumentSize(spec), v), Digits(spec), false);
    var field := Field(spec, text);
    if n <= 0 {
      assert field == text;
    } else if LeftJustified(spec) {
      assert field[|text|] == ' ';
      assert !AllDigits(10, field);
      assert field[0] == text[0];
    } else if PadChar(spec) == ' ' {
      assert field[0] == ' ';
      assert !AllDigits(10, field);
    } else {
      LeadingZeros(10, n, text);
    }
  }

  lemma WholeRun(digits: string)
    requires AllDigits(8, digits) && digits != []
    ensures OctalRun(digits) == digits
  {
    OctalRunAmid("", digits, "");
    assert "" + digits + "" == digits;
  }

  lemma OctalFieldReads(spec: Spec, text: string)
    requires AllDigits(8, text) && text != []
    ensures Denotes(8, OctalRun(Field(spec, text))) == Denotes(8, text)
  {
    var n := spec.width - |text|;
    if RightJustified(spec) && PadChar(spec) == '0' {
      LeadingZeros(8, n, text);
      WholeRun(Repeated('0', n) + text);
    } else if RightJustified(spec) {
      OctalRunAmid(Repeated(' ', n), text, "");
      assert Repeated(' ', n) + text + "" == Field(spec, text);
    } else {
      var spaces := if LeftJustified(spec) then Repeated(' ', n) else "";
      OctalRunAmid("", text, spaces);
      assert "" + text + spaces == Field(spec, text);
    }
  }

  /**
   * A field of octal output, however it is padded, prefixed and filled with
   * zeros, is read back from an archive header as what was written.
   */
  lemma OctalReadBack(spec: Spec, v: nat)
    ensures Denotes(8, OctalRun(Field(spec, OctalText(spec, v)))) == v % Power(8, OctalPlaces(spec))
  {
    var places := OctalPlaces(spec);
    var least := LeastDigits(spec, places);
    var digits := Shown(8, v % Power(8, places), least, false);
    NumeralWritten(8, v % Power(8, places), least, false);
    var prefix := if Prefixed(spec, v) then 1 else 0;
    LeadingZeros(8, prefix, digits);
    assert OctalText(spec, v) == Repeated('0', prefix) + digits;
    OctalFieldReads(spec, OctalText(spec, v));
  }

  /**
   * The octal digits of a char or a short have room for more bits than it has,
   * and the argument is not reduced before they are written: the output is of
   * a number of its size exactly when those bits of the argument are clear.
   */
  lemma OctalExactIff(spec: Spec, v: nat)
    requires spec.length == HH && spec.conversion == 'o'
    ensures v % Power(8, OctalPlaces(spec)) == v % 256 <==> v / 256 % 2 == 0
  {
    assert Power(8, 3) == 512;
    Regrouped(v, 256, 2);
  }

  lemma OctalShortExactIff(spec: Spec, v: nat)
    requires spec.length == H && spec.conversion == 'o'
    ensures v % Power(8, OctalPlaces(spec)) == v % 65536 <==> v / 65536 % 4 == 0
  {
    assert Power(8, 6) == 262144;
    Regrouped(v, 65536, 4);
  }

  /** Hexadecimal output denotes the argument reduced to its size. */
  lemma HexadecimalDenotes(spec: Spec, v: nat)
    ensures var text := HexadecimalText(spec, v);
      var digits := if Prefixed(spec, v) then text[2..] else text;
      && (Prefixed(spec, v) ==> text[..2] == "0x")
      && AllDigits(16, digits) && Denotes(16, digits) == v % Power(256, ArgumentSize(spec))
  {
    var places := HexadecimalPlaces(spec);
    var digits := Shown(16, v % Power(16, places), LeastDigits(spec, places), spec.conversion == 'X');
    NumeralWritten(16, v % Power(16, places), LeastDigits(spec, places), spec.conversion == 'X');
    Bytes(ArgumentSize(spec));
    if Prefixed(spec, v) {
      assert HexadecimalText(spec, v) == "0x" + digits;
    } else {
      assert HexadecimalText(spec, v) == digits;
    }
  }

  lemma Bytes(size: nat)
    requires size in {1, 2, 4, 8}
    ensures Power(256, size) == Power(16, 2 * size)
    ensures Power(256, size) ==
      (if size == 1 then 256 else if size == 2 then 65536 else if size == 4 then WORD else LONG_WORD)
  {
    assert Power(16, 2) == 256 && Power(16, 4) == 65536 && Power(16, 8) == WORD && Power(16, 16) == LONG_WORD;
    assert Power(256, 1) == 256 && Power(256, 2) == 65536 && Power(256, 4) == WORD && Power(256, 8) == LONG_WORD;
  }

  lemma ReducedIff(size: nat, v: nat)
    requires size in {1, 2, 4, 8} && v < LONG_WORD
    ensures Reduced(size, v) == v <==> v < Power(256, size)
  {
    Bytes(size);
  }

  function SignedDenotes(text: string): int
  {
    if text == "" then 0
    else if text[0] == '-' then -Denotes(10, text[1..])
    else if text[0] in {'+', ' '} then Denotes(10, text[1..])
    else Denotes(10, text)
  }

  /**
   * Signed output denotes the argument exactly when its magnitude, not the
   * argument, fits the size: 200 written as a signed char is 200.
   */
  lemma SignedIff(spec: Spec, v: int)
    requires -LONG_WORD < v < LONG_WORD
    ensures SignedDenotes(SignedText(spec, v)) == v
      <==> Magnitude(v) < Power(256, ArgumentSize(spec))
  {
    var m := Magnitude(v);
    var digits := DecimalText(spec, m);
    NumeralWritten(10, Reduced(ArgumentSize(spec), m), Digits(spec), false);
    ReducedIff(ArgumentSize(spec), m);
    assert IsDigit(10, digits[0]);
    var text := SignedText(spec, v);
    if v < 0 {
      assert text == "-" + digits;
      assert text[1..] == digits;
    } else if spec.plus || spec.space {
      assert text[1..] == digits;
    } else {
      assert text == digits;
    }
  }

  /**
   * Filling with zeros puts them in front of the sign: a negative number keeps
   * its sign first exactly when nothing is put in front of it.
   */
  lemma SignFirstIff(spec: Spec, v: int)
    requires v < 0
    ensures var text := SignedText(spec, v);
      Field(spec, text)[0] == '-' <==> spec.minus || spec.width <= |text|
  {
    var text := SignedText(spec, v);
    if RightJustified(spec) && spec.width > |text| {
      assert Field(spec, text)[0] == PadChar(spec);
    }
  }
}

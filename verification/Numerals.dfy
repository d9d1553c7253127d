/**
 * Numerals: how a number is written with digits, most significant first, and
 * how the two readers of numerals in the system turn one back into a number:
 * the octal fields of archive headers (userspace/loader/archives/tar.c) and
 * the integer values of command line options
 * (kernel/domain/services/cmdline.c).
 */
module Numerals {
  import opened Options

  const MAX_DECIMAL_DIGITS := 9
  const MAX_HEXADECIMAL_LENGTH := 10

  predicate IsDigit(base: nat, c: char)
  {
    || ('0' <= c <= '9' && c as int - '0' as int < base)
    || ('a' <= c <= 'f' && c as int - 'a' as int + 10 < base)
    || ('A' <= c <= 'F' && c as int - 'A' as int + 10 < base)
  }

  /** The value of a digit character, as the command line code computes it. */
  function DigitValue(c: char): int
  {
    if '0' <= c <= '9' then c as int - '0' as int
    else if c >= 'a' && c as int - 'a' as int + 10 < 36 then c as int - 'a' as int + 10
    else c as int - 'A' as int + 10
  }

  function DigitChar(d: nat, upper: bool): (c: char)
    requires d < 16
    ensures DigitValue(c) == d
    ensures forall base: nat {:trigger IsDigit(base, c)} :: IsDigit(base, c) <==> d < base
  {
    if d < 10 then '0' + d as char
    else if upper then 'A' + (d - 10) as char
    else 'a' + (d - 10) as char
  }

  /** The number written by the first n characters of s. */
  function Denoted(base: nat, s: string, n: nat): int
    requires n <= |s|
  {
    if n == 0 then 0 else base * Denoted(base, s, n - 1) + DigitValue(s[n - 1])
  }

  function Denotes(base: nat, s: string): int
  {
    Denoted(base, s, |s|)
  }

  predicate AllDigits(base: nat, s: string)
  {
    forall i :: 0 <= i < |s| ==> IsDigit(base, s[i])
  }

  /** The numeral of v with at least `least` digits; the number zero needs no digit of its own. */
  function Shown(base: nat, v: nat, least: int, upper: bool): string
    requires 2 <= base <= 16
    decreases v, if least < 0 then 0 else least
  {
    if v == 0 && least <= 0 then ""
    else
      DivisionShrinks(v, base);
      Shown(base, v / base, least - 1, upper) + [DigitChar(v % base, upper)]
  }

  lemma DivisionShrinks(v: nat, base: nat)
    requires 2 <= base
    ensures 0 <= v / base <= v
    ensures v > 0 ==> v / base < v
  {
    Divided(v, base);
    AtLeastTwice(base, v / base);
  }

  lemma AtLeastTwice(base: nat, q: int)
    requires 2 <= base
    ensures 0 <= q ==> 2 * q <= base * q
    ensures q < 0 ==> base * q <= 2 * q
  {
    assert base * q == 2 * q + (base - 2) * q;
  }

  lemma {:induction false} DenotedAlike(base: nat, s: string, t: string, n: nat)
    requires n <= |s| && n <= |t| && s[..n] == t[..n]
    ensures Denoted(base, s, n) == Denoted(base, t, n)
  {
    if n > 0 {
      assert s[n - 1] == s[..n][n - 1] == t[n - 1];
      assert s[..n - 1] == s[..n][..n - 1] == t[..n - 1];
      DenotedAlike(base, s, t, n - 1);
    }
  }

  lemma DenotesOneMore(base: nat, s: string, c: char)
    ensures Denotes(base, s + [c]) == base * Denotes(base, s) + DigitValue(c)
  {
    DenotedAlike(base, s + [c], s, |s|);
  }

  /**
   * What is shown is made of digits, denotes the number, is as long as asked
   * and is no longer than that unless the number needs it.
   */
  lemma {:induction false} ShownDenotes(base: nat, v: nat, least: int, upper: bool)
    requires 2 <= base <= 16
    ensures var s := Shown(base, v, least, upper);
      && AllDigits(base, s)
      && Denotes(base, s) == v
      && least <= |s|
      && (|s| > 0 && |s| > least ==> DigitValue(s[0]) != 0)
    decreases v, if least < 0 then 0 else least
  {
    if v != 0 || least > 0 {
      DivisionShrinks(v, base);
      Divided(v, base);
      ShownDenotes(base, v / base, least - 1, upper);
      DenotesOneMore(base, Shown(base, v / base, least - 1, upper), DigitChar(v % base, upper));
    }
  }

  lemma {:induction false} DenotedBelow(base: nat, s: string, n: nat)
    requires 2 <= base <= 16 && n <= |s| && AllDigits(base, s)
    ensures 0 <= Denoted(base, s, n)
    ensures 0 < n && DigitValue(s[0]) != 0 ==> 0 < Denoted(base, s, n)
  {
    if n > 0 {
      DenotedBelow(base, s, n - 1);
      TimesAtLeast(base, Denoted(base, s, n - 1));
      assert IsDigit(base, s[n - 1]) && IsDigit(base, s[0]);
    }
  }

  lemma QuotientOf(base: nat, q: nat, d: nat)
    requires d < base
    ensures (base * q + d) / base == q && (base * q + d) % base == d
  {
    Divided(base * q + d, base);
    OneQuotient(base, q, d, (base * q + d) / base, (base * q + d) % base);
  }

  lemma OneQuotient(base: nat, q: int, d: nat, r: int, e: nat)
    requires d < base && e < base
    requires base * q + d == base * r + e
    ensures q == r && d == e
  {
    assert base * (q - r) == e - d;
    if q > r { TimesAtLeast(base, q - r - 1); }
    if q < r { TimesAtLeast(base, r - q - 1); }
  }

  lemma TimesAtLeast(base: nat, x: nat)
    requires 0 < base
    ensures base * x >= x
    ensures base * (x + 1) >= base
  {
  }

  lemma Divided(v: nat, base: nat)
    requires 0 < base
    ensures v == base * (v / base) + v % base
    ensures 0 <= v % base < base
  {
  }

  /**
   * Nothing else does: digits of the same case that denote v and are neither
   * too few nor needlessly many are the ones shown.
   */
  lemma {:induction false} ShownOnly(base: nat, s: string, least: int, upper: bool)
    requires 2 <= base <= 16
    requires AllDigits(base, s)
    requires forall i :: 0 <= i < |s| ==> s[i] == DigitChar(DigitOf(s[i]), upper)
    requires least <= |s|
    requires |s| > 0 && |s| > least ==> DigitValue(s[0]) != 0
    ensures 0 <= Denotes(base, s)
    ensures s == Shown(base, Denotes(base, s), least, upper)
    decreases |s|
  {
    DenotedBelow(base, s, |s|);
    if |s| > 0 {
      var t := s[..|s| - 1];
      var d := DigitOf(s[|s| - 1]);
      assert s == t + [s[|s| - 1]];
      assert IsDigit(base, s[|s| - 1]);
      ShownOnly(base, t, least - 1, upper);
      DenotesOneMore(base, t, s[|s| - 1]);
      QuotientOf(base, Denotes(base, t), d);
    }
  }

  /** A digit's value, for characters that are digits. */
  function DigitOf(c: char): (d: nat)
    ensures IsDigit(16, c) ==> d == DigitValue(c)
    ensures d < 16
  {
    if IsDigit(16, c) then DigitValue(c) else 0
  }

  /** The end of the longest run of characters from i on that are digits, if `digits`, or are not. */
  function RunEnd(base: nat, s: string, i: nat, digits: bool): (e: nat)
    requires i <= |s|
    ensures i <= e <= |s|
    ensures forall k :: i <= k < e ==> IsDigit(base, s[k]) == digits
    ensures e < |s| ==> IsDigit(base, s[e]) != digits
    decreases |s| - i
  {
    if i < |s| && IsDigit(base, s[i]) == digits then RunEnd(base, s, i + 1, digits) else i
  }

  /** The first run of octal digits in a field. */
  function OctalRun(field: string): string
  {
    var b := RunEnd(8, field, 0, false);
    field[b..RunEnd(8, field, b, true)]
  }

  lemma OneMoreDenoted(base: nat, s: string, b: nat, i: nat)
    requires b <= i < |s|
    ensures Denotes(base, s[b..i + 1]) == base * Denotes(base, s[b..i]) + DigitValue(s[i])
  {
    assert s[b..i + 1] == s[b..i] + [s[i]];
    DenotesOneMore(base, s[b..i], s[i]);
  }

  method DecodeOctalField(field: string) returns (value: int)
    ensures value == Denotes(8, OctalRun(field))
  {
    var i := 0;
    while i < |field| && !IsDigit(8, field[i])
      invariant i <= |field|
      invariant forall k :: 0 <= k < i ==> !IsDigit(8, field[k])
    {
      i := i + 1;
    }
    ghost var b := i;
    RunUnique(8, field, 0, b, false);
    value := 0;
    while i < |field| && IsDigit(8, field[i])
      invariant b <= i <= |field|
      invariant forall k :: b <= k < i ==> IsDigit(8, field[k])
      invariant value == Denotes(8, field[b..i])
    {
      OneMoreDenoted(8, field, b, i);
      value := 8 * value + DigitValue(field[i]);
      i := i + 1;
    }
    RunUnique(8, field, b, i, true);
  }

  lemma {:induction false} RunUnique(base: nat, s: string, i: nat, e: nat, digits: bool)
    requires i <= e <= |s|
    requires forall k :: i <= k < e ==> IsDigit(base, s[k]) == digits
    requires e < |s| ==> IsDigit(base, s[e]) != digits
    ensures RunEnd(base, s, i, digits) == e
    decreases e - i
  {
    if i < e { RunUnique(base, s, i + 1, e, digits); }
  }

  /** A numeral with digitless text on either side is read back as itself. */
  lemma OctalRunAmid(before: string, digits: string, after: string)
    requires forall i :: 0 <= i < |before| ==> !IsDigit(8, before[i])
    requires AllDigits(8, digits) && digits != []
    requires after != [] ==> !IsDigit(8, after[0])
    ensures OctalRun(before + digits + after) == digits
  {
    var field := before + digits + after;
    assert field[|before|] == digits[0];
    RunUnique(8, field, 0, |before|, false);
    forall k | |before| <= k < |before| + |digits| ensures IsDigit(8, field[k]) {
      assert field[k] == digits[k - |before|];
    }
    assert after != [] ==> field[|before| + |digits|] == after[0];
    RunUnique(8, field, |before|, |before| + |digits|, true);
    assert field[|before|..|before| + |digits|] == digits;
  }

  /**
   * What an option's value reads as. The test that should recognize a leading
   * zero compares the character with NUL, so the hexadecimal form asks for a
   * NUL where its leading zero should be.
   */
  function MatchedInteger(token: string): Option<int>
  {
    if |token| > 1 && token[0] == '\0' then
      if 3 <= |token| <= MAX_HEXADECIMAL_LENGTH && token[1] == 'x' && AllDigits(16, token[2..])
      then Some(Denotes(16, token[2..])) else None
    else if 1 <= |token| <= MAX_DECIMAL_DIGITS && AllDigits(10, token)
    then Some(Denotes(10, token))
    else None
  }

  method MatchInteger(token: string) returns (r: Option<int>)
    ensures r == MatchedInteger(token)
  {
    if |token| < 1 { return None; }
    if |token| == 1 {
      if !IsDigit(10, token[0]) { return None; }
      DenotesOneMore(10, "", token[0]);
      assert token == "" + [token[0]];
      return Some(DigitValue(token[0]));
    }
    if token[0] == '\0' {
      if token[1] != 'x' || |token| < 3 || |token| > MAX_HEXADECIMAL_LENGTH { return None; }
      r := Accumulate(16, token, 2);
    } else {
      if |token| > MAX_DECIMAL_DIGITS { return None; }
      r := Accumulate(10, token, 0);
      assert token[0..] == token;
    }
  }

  /** The loops that accumulate the digits of a token from `start` on. */
  method Accumulate(base: nat, token: string, start: nat) returns (r: Option<int>)
    requires start <= |token|
    ensures r == if AllDigits(base, token[start..]) then Some(Denotes(base, token[start..])) else None
  {
    var acc := 0;
    var i := start;
    while i < |token|
      invariant start <= i <= |token|
      invariant forall k :: start <= k < i ==> IsDigit(base, token[k])
      invariant acc == Denotes(base, token[start..i])
    {
      if !IsDigit(base, token[i]) {
        assert token[start..][i - start] == token[i];
        return None;
      }
      OneMoreDenoted(base, token, start, i);
      acc := base * acc + DigitValue(token[i]);
      i := i + 1;
    }
    assert token[start..i] == token[start..];
    return Some(acc);
  }

  /**
   * The documentation has hexadecimal values accepted; none is, whatever
   * follows the prefix, because 'x' is no decimal digit.
   */
  lemma HexadecimalRejected(digits: string)
    ensures MatchedInteger("0x" + digits) == None
  {
    var token := "0x" + digits;
    assert token[0] == '0' && token[1] == 'x';
    assert !IsDigit(10, token[1]);
  }
}

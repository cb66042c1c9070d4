/** The two C library conversions `parseAndExecuteCommand` applies to its arguments, as the
    AVR C library defines them: `strtoul(s, NULL, 0)` with a 32-bit `unsigned long`, and
    `atoi(s)` with a 16-bit `int`. */
module Numbers {
  import CString

  /** `ULONG_MAX` for a 32-bit `unsigned long`. */
  const ULONG_MAX: nat := 0xffff_ffff

  /** The value of `c` as a digit of any base up to 36; 36 for a non-digit. */
  function DigitValue(c: char): (d: nat)
    ensures d <= 36
  {
    if '0' <= c <= '9' then c as int - '0' as int
    else if 'a' <= c <= 'z' then c as int - 'a' as int + 10
    else if 'A' <= c <= 'Z' then c as int - 'A' as int + 10
    else 36
  }

  predicate IsDigit(c: char, base: nat)
  {
    DigitValue(c) < base
  }

  /** The end of the run of `base` digits that starts at `i`. */
  function DigitEnd(s: seq<char>, i: nat, base: nat): (e: nat)
    requires i <= |s|
    ensures i <= e <= |s| && (e == |s| || !IsDigit(s[e], base))
    ensures forall k :: i <= k < e ==> IsDigit(s[k], base)
    decreases |s| - i
  {
    if i < |s| && IsDigit(s[i], base) then DigitEnd(s, i + 1, base) else i
  }

  /** The position after the leading `isspace` characters. */
  function SpaceEnd(s: seq<char>, i: nat): (e: nat)
    requires i <= |s|
    ensures i <= e <= |s| && (e == |s| || !CString.IsSpace(s[e]))
    decreases |s| - i
  {
    if i < |s| && CString.IsSpace(s[i]) then SpaceEnd(s, i + 1) else i
  }

  /** The value of a digit string, most significant digit first. */
  function Value(d: seq<char>, base: nat): nat
    decreases |d|
  {
    if |d| == 0 then 0 else Value(d[..|d| - 1], base) * base + DigitValue(d[|d| - 1])
  }

  /** Where the digits start after an optional sign at `j`, and whether the sign was
      a minus. */
  function SignEnd(s: seq<char>, j: nat): (r: (bool, nat))
    requires j <= |s|
    ensures r.1 <= |s|
  {
    if j < |s| && s[j] == '-' then (true, j + 1)
    else if j < |s| && s[j] == '+' then (false, j + 1)
    else (false, j)
  }

  /** The base `strtoul` picks when asked for base 0, and where its digits start: a
      `0x` or `0X` prefix selects 16, another leading `0` selects 8, anything else 10. */
  function Radix(s: seq<char>, j: nat): (r: (nat, nat))
    requires j <= |s|
    ensures r.1 <= |s|
  {
    if j + 1 < |s| && s[j] == '0' && (s[j + 1] == 'x' || s[j + 1] == 'X') then (16, j + 2)
    else if j < |s| && s[j] == '0' then (8, j)
    else (10, j)
  }

  /** `strtoul(s, NULL, 0)`: skip white space, take a sign, pick the base, read the
      digits. A magnitude beyond `ULONG_MAX` saturates to `ULONG_MAX`; otherwise a
      minus sign negates modulo 2^32. */
  function StrToUL(s: seq<char>): (r: nat)
    ensures r <= ULONG_MAX
  {
    var sign := SignEnd(s, SpaceEnd(s, 0));
    var radix := Radix(s, sign.1);
    Convert(sign.0, Value(s[radix.1..DigitEnd(s, radix.1, radix.0)], radix.0))
  }

  /** The result of `strtoul` for a magnitude `v` read after an optional minus sign. */
  function Convert(negative: bool, v: nat): (r: nat)
    ensures r <= ULONG_MAX
    ensures v > ULONG_MAX ==> r == ULONG_MAX
    ensures v <= ULONG_MAX && !negative ==> r == v
    ensures 0 < v <= ULONG_MAX && negative ==> r == 0x1_0000_0000 - v
    ensures negative && v == 0 ==> r == 0
  {
    if v > ULONG_MAX then ULONG_MAX
    else if negative then (0x1_0000_0000 - v) % 0x1_0000_0000
    else v
  }

  /** A 16-bit two's-complement `int`. */
  function Wrap16(x: int): (r: int)
    ensures -0x8000 <= r < 0x8000 && (r - x) % 0x1_0000 == 0
    ensures -0x8000 <= x < 0x8000 ==> r == x
  {
    (x + 0x8000) % 0x1_0000 - 0x8000
  }

  /** `atoi(s)`: skip white space, take a sign, read decimal digits. The C standard leaves
      overflow undefined; this model takes the 16-bit wrap-around of the accumulated
      value. */
  function AtoI(s: seq<char>): (r: int)
    ensures -0x8000 <= r < 0x8000
  {
    var sign := SignEnd(s, SpaceEnd(s, 0));
    var v := Value(s[sign.1..DigitEnd(s, sign.1, 10)], 10);
    Wrap16(if sign.0 then -(v as int) else v as int)
  }

  // ---------------------------------------------------------------------------
  // Rendering numbers, and reading them back
  // ---------------------------------------------------------------------------

  /** The lower-case digit for `d`. */
  function DigitChar(d: nat): (c: char)
    requires d < 16
    ensures DigitValue(c) == d
  {
    if d < 10 then ('0' as int + d) as char else ('a' as int + d - 10) as char
  }

  /** `n` written in `base` without leading zeros. */
  function Render(n: nat, base: nat): (d: seq<char>)
    requires 2 <= base <= 16
    ensures |d| > 0
    decreases n
  {
    if n < base then [DigitChar(n)] else Render(n / base, base) + [DigitChar(n % base)]
  }

  lemma DivStep(n: nat, base: nat)
    requires 2 <= base <= n
    ensures 1 <= n / base < n && n == (n / base) * base + n % base && n % base < base
  {
  }

  /** A rendered number has only digits of its base, starts with a non-zero digit
      unless it is 0, and has the number as its value. */
  lemma {:induction false} RenderValue(n: nat, base: nat)
    requires 2 <= base <= 16
    ensures forall k :: 0 <= k < |Render(n, base)| ==> IsDigit(Render(n, base)[k], base)
    ensures n > 0 ==> Render(n, base)[0] != '0'
    ensures n == 0 <==> Render(n, base) == ['0']
    ensures Value(Render(n, base), base) == n
    decreases n
  {
    var d := Render(n, base);
    if n < base {
      assert d[..0] == [];
      assert Value(d, base) == DigitValue(d[0]);
    } else {
      var q := n / base;
      DivStep(n, base);
      var dq := Render(q, base);
      RenderValue(q, base);
      assert d == dq + [DigitChar(n % base)];
      assert d[..|d| - 1] == dq;
      assert Value(d, base) == Value(dq, base) * base + n % base;
      assert d[0] == dq[0];
      assert forall k :: 0 <= k < |d| ==> d[k] == if k < |dq| then dq[k] else DigitChar(n % base);
    }
  }

  /** Once every character from `k` on is a digit, the digit run ends at the end. */
  lemma {:induction false} DigitEndAll(s: seq<char>, k: nat, base: nat)
    requires k <= |s| && forall i :: k <= i < |s| ==> IsDigit(s[i], base)
    ensures DigitEnd(s, k, base) == |s|
    decreases |s| - k
  {
    if k < |s| {
      DigitEndAll(s, k + 1, base);
    }
  }

  /** The digits of a rendered number, read from position `k` of `s` where they stand
      to the end: the run reaches the end and has the number as its value. */
  lemma RenderedAt(s: seq<char>, k: nat, n: nat, base: nat)
    requires 2 <= base <= 16 && k <= |s| && s[k..] == Render(n, base)
    ensures DigitEnd(s, k, base) == |s|
    ensures Value(s[k..DigitEnd(s, k, base)], base) == n
  {
    var d := Render(n, base);
    RenderValue(n, base);
    forall i | k <= i < |s|
      ensures IsDigit(s[i], base)
    {
      assert s[i] == d[i - k];
    }
    DigitEndAll(s, k, base);
    assert s[k..|s|] == d;
  }

  /** The first digit of a rendered number. */
  lemma LeadDigit(n: nat, base: nat)
    requires 2 <= base <= 16
    ensures IsDigit(Render(n, base)[0], base)
    ensures n > 0 ==> Render(n, base)[0] != '0'
    ensures n == 0 ==> Render(n, base) == ['0']
  {
    RenderValue(n, base);
  }

  /** `strtoul` reads back a number written in decimal, up to `ULONG_MAX`, and
      saturates above it. */
  lemma StrToULDecimal(n: nat)
    ensures StrToUL(Render(n, 10)) == if n <= ULONG_MAX then n else ULONG_MAX
  {
    var d := Render(n, 10);
    LeadDigit(n, 10);
    assert SpaceEnd(d, 0) == 0 && SignEnd(d, 0) == (false, 0);
    assert d[0..] == d;
    if n == 0 {
      assert Radix(d, 0) == (8, 0);
      assert DigitEnd(d, 0, 8) == 1 && d[0..1] == d;
      assert Value(d, 8) == 0 by {
        assert d[..0] == [];
      }
    } else {
      assert Radix(d, 0) == (10, 0);
      RenderedAt(d, 0, n, 10);
    }
  }

  /** `strtoul` reads back a number written in hexadecimal after `0x`. */
  lemma StrToULHex(n: nat)
    requires n <= ULONG_MAX
    ensures StrToUL("0x" + Render(n, 16)) == n
  {
    var s := "0x" + Render(n, 16);
    assert SpaceEnd(s, 0) == 0 && SignEnd(s, 0) == (false, 0);
    assert Radix(s, 0) == (16, 2);
    assert s[2..] == Render(n, 16);
    RenderedAt(s, 2, n, 16);
  }

  /** `strtoul` reads back a number written in octal after a leading `0`. */
  lemma StrToULOctal(n: nat)
    requires n <= ULONG_MAX
    ensures StrToUL("0" + Render(n, 8)) == n
  {
    OctalParts(n);
  }

  /** How `strtoul` scans a `0` followed by octal digits. */
  lemma OctalParts(n: nat)
    ensures var s := "0" + Render(n, 8);
      SpaceEnd(s, 0) == 0 && SignEnd(s, 0) == (false, 0) && Radix(s, 0) == (8, 0) &&
      DigitEnd(s, 0, 8) == |s| && Value(s[0..|s|], 8) == n
  {
    var d := Render(n, 8);
    var s := "0" + d;
    LeadDigit(n, 8);
    assert SpaceEnd(s, 0) == 0 && SignEnd(s, 0) == (false, 0);
    assert s[1] == d[0];
    assert Radix(s, 0) == (8, 0);
    assert s[1..] == d;
    RenderedAt(s, 1, n, 8);
    assert DigitEnd(s, 0, 8) == DigitEnd(s, 1, 8);
    assert s[1..|s|] == d && s[0..|s|] == s;
    OctalLeadingZero(d);
  }

  /** A leading zero adds nothing to the value. */
  lemma {:induction false} OctalLeadingZero(d: seq<char>)
    ensures Value("0" + d, 8) == Value(d, 8)
    decreases |d|
  {
    if |d| == 0 {
      assert ("0" + d)[..0] == [];
    } else {
      assert ("0" + d)[..|"0" + d| - 1] == "0" + d[..|d| - 1];
      OctalLeadingZero(d[..|d| - 1]);
    }
  }

  /** A minus sign negates modulo 2^32. */
  lemma StrToULNegative(n: nat)
    requires 0 < n <= ULONG_MAX
    ensures StrToUL("-" + Render(n, 10)) == 0x1_0000_0000 - n
  {
    NegativeParts(n);
  }

  /** How `strtoul` and `atoi` scan a minus sign followed by decimal digits. */
  lemma NegativeParts(n: nat)
    requires 0 < n
    ensures var s := "-" + Render(n, 10);
      SpaceEnd(s, 0) == 0 && SignEnd(s, 0) == (true, 1) && Radix(s, 1) == (10, 1) &&
      DigitEnd(s, 1, 10) == |s| && Value(s[1..|s|], 10) == n
  {
    var d := Render(n, 10);
    var s := "-" + d;
    LeadDigit(n, 10);
    assert SpaceEnd(s, 0) == 0 && SignEnd(s, 0) == (true, 1);
    assert s[1] == d[0];
    assert Radix(s, 1) == (10, 1);
    assert s[1..] == d;
    RenderedAt(s, 1, n, 10);
  }

  /** `atoi` reads back a decimal number, as a 16-bit `int`. */
  lemma AtoIDecimal(n: nat)
    ensures AtoI(Render(n, 10)) == Wrap16(n)
    ensures n < 0x8000 ==> AtoI(Render(n, 10)) == n
  {
    var d := Render(n, 10);
    LeadDigit(n, 10);
    assert SpaceEnd(d, 0) == 0 && SignEnd(d, 0) == (false, 0);
    assert d[0..] == d;
    RenderedAt(d, 0, n, 10);
  }

  /** `atoi` reads back a negative decimal number. */
  lemma AtoINegative(n: nat)
    ensures AtoI("-" + Render(n, 10)) == Wrap16(-(n as int))
    ensures n <= 0x8000 ==> AtoI("-" + Render(n, 10)) == -(n as int)
  {
    var s := "-" + Render(n, 10);
    assert SpaceEnd(s, 0) == 0 && SignEnd(s, 0) == (true, 1);
    assert s[1..] == Render(n, 10);
    RenderedAt(s, 1, n, 10);
  }

  /** Without any digit both conversions give 0. */
  lemma NoDigits(s: seq<char>)
    requires forall i :: 0 <= i < |s| ==> DigitValue(s[i]) >= 10 && s[i] != '+' && s[i] != '-' && !CString.IsSpace(s[i])
    ensures AtoI(s) == 0
    ensures StrToUL(s) == 0
  {
    assert SpaceEnd(s, 0) == 0 && SignEnd(s, 0) == (false, 0);
    assert Radix(s, 0) == (10, 0);
    assert s[0..0] == [];
  }
}

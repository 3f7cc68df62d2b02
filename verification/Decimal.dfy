/** Decimal numerals: printing integers, and amounts scaled by a power of ten. */
module Decimal {

  function DigitChar(d: nat): char
    requires d < 10
  {
    (('0' as int) + d) as char
  }

  predicate IsDigit(c: char) {
    '0' <= c <= '9'
  }

  predicate IsDigits(s: string) {
    forall i :: 0 <= i < |s| ==> IsDigit(s[i])
  }

  function DigitValue(c: char): nat {
    if IsDigit(c) then c as int - '0' as int else 0
  }

  /** The numeral of `n`, without leading zeros. */
  function Itoa(n: nat): string {
    if n < 10 then [DigitChar(n)] else Itoa(n / 10) + [DigitChar(n % 10)]
  }

  function Abs(n: int): nat {
    if n < 0 then -n else n
  }

  function IntStr(n: int): string {
    if n < 0 then "-" + Itoa(Abs(n)) else Itoa(Abs(n))
  }

  /** Quotient and remainder. */
  function DivMod(a: nat, b: nat): (qr: (nat, nat))
    requires b > 0
    ensures a == qr.0 * b + qr.1 && qr.1 < b
  {
    (a / b, a % b)
  }

  /** The number a run of digits stands for. */
  function Value(s: string): nat {
    if s == "" then 0 else 10 * Value(s[..|s| - 1]) + DigitValue(s[|s| - 1])
  }

  function Pow10(n: nat): nat
    ensures Pow10(n) > 0
  {
    if n == 0 then 1 else 10 * Pow10(n - 1)
  }

  function Zeros(n: nat): (s: string)
    ensures |s| == n
  {
    if n == 0 then "" else Zeros(n - 1) + "0"
  }

  /** Drops the zeros at the end. */
  function TrimZeros(s: string): string {
    if s != "" && s[|s| - 1] == '0' then TrimZeros(s[..|s| - 1]) else s
  }

  // ---- Integers ----

  lemma {:induction false} ItoaValue(n: nat)
    ensures IsDigits(Itoa(n)) && Itoa(n) != "" && Value(Itoa(n)) == n
  {
    if n >= 10 {
      ItoaValue(n / 10);
      assert Itoa(n)[..|Itoa(n)| - 1] == Itoa(n / 10);
    } else {
      assert Itoa(n)[..0] == "";
    }
  }

  lemma ItoaInjective(a: nat, b: nat)
    requires Itoa(a) == Itoa(b)
    ensures a == b
  {
    ItoaValue(a);
    ItoaValue(b);
  }

  lemma IntStrInjective(a: int, b: int)
    requires IntStr(a) == IntStr(b)
    ensures a == b
  {
    ItoaValue(Abs(a));
    ItoaValue(Abs(b));
    assert IntStr(a)[0] == '-' <==> a < 0;
    assert IntStr(b)[0] == '-' <==> b < 0;
    if a < 0 {
      assert IntStr(a)[1..] == Itoa(Abs(a)) && IntStr(b)[1..] == Itoa(Abs(b));
    }
    ItoaInjective(Abs(a), Abs(b));
  }

  // ---- Scaled amounts ----

  /** The digits of `frac` out to `decimals` places, then without the zeros at the end, but never empty. */
  function FracStr(frac: nat, decimals: nat): string {
    var trimmed := TrimZeros(Padded(Itoa(frac), decimals));
    if trimmed == "" then "0" else trimmed
  }

  function Padded(digits: string, width: nat): string {
    if |digits| < width then Zeros(width - |digits|) + digits else digits
  }

  /** The amount divided by 10^decimals, exactly. */
  function FormatUnits(amount: int, decimals: int): string {
    if decimals <= 0 then IntStr(amount)
    else
      var (whole, frac) := DivMod(Abs(amount), Pow10(decimals));
      Signed(amount < 0, Itoa(whole) + "." + FracStr(frac, decimals))
  }

  function Signed(negative: bool, s: string): string {
    if negative then "-" + s else s
  }

  function IndexOf(s: string, c: char): (i: nat)
    ensures i <= |s| && (i < |s| ==> s[i] == c)
  {
    if s == "" || s[0] == c then 0 else 1 + IndexOf(s[1..], c)
  }

  /** Reads an unsigned decimal back, scaled up by 10^decimals. */
  function ReadUnsigned(s: string, decimals: nat): int {
    var dot := IndexOf(s, '.');
    var frac := if dot < |s| then s[dot + 1..] else "";
    Value(s[..dot]) * Pow10(decimals) + Value(frac) * Pow10(if |frac| <= decimals then decimals - |frac| else 0)
  }

  /** Reads a decimal back, scaled up by 10^decimals. */
  function ReadUnits(s: string, decimals: nat): int {
    if s != "" && s[0] == '-' then -ReadUnsigned(s[1..], decimals) else ReadUnsigned(s, decimals)
  }

  /** A printed amount: one dot, one to `decimals` fractional digits, and no needless zero at the end. */
  ghost predicate WellPrinted(s: string, decimals: nat) {
    exists ip: string, fp: string :: Printed(s, ip, fp, decimals)
  }

  ghost predicate Printed(s: string, ip: string, fp: string, decimals: nat) {
    && (s == ip + "." + fp || s == "-" + (ip + "." + fp))
    && ip != "" && IsDigits(ip) && IsDigits(fp)
    && 1 <= |fp| <= decimals && (fp == "0" || fp[|fp| - 1] != '0')
  }

  lemma {:induction false} IndexOfAfter(a: string, c: char, b: string)
    requires c !in a
    ensures IndexOf(a + [c] + b, c) == |a|
  {
    var s := a + [c] + b;
    if a != "" {
      assert s[0] == a[0] && s[1..] == a[1..] + [c] + b;
      IndexOfAfter(a[1..], c, b);
    }
  }

  lemma {:induction false} ZerosMeaning(n: nat)
    ensures IsDigits(Zeros(n)) && Value(Zeros(n)) == 0
  {
    if n > 0 {
      ZerosMeaning(n - 1);
      assert Zeros(n)[..n - 1] == Zeros(n - 1);
    }
  }

  /** Digits before a numeral count for a power of ten more. */
  lemma {:induction false} ValueConcat(a: string, b: string)
    ensures Value(a + b) == Value(a) * Pow10(|b|) + Value(b)
    decreases |b|
  {
    if b == "" {
      assert a + b == a;
    } else {
      var c := b[..|b| - 1];
      assert (a + b)[..|a + b| - 1] == a + c;
      ValueConcat(a, c);
      Distribute(Value(a), Pow10(|c|), Value(c));
    }
  }

  lemma Distribute(a: nat, p: nat, v: nat)
    ensures 10 * (a * p + v) == a * (10 * p) + 10 * v
  {
  }

  lemma {:induction false} ItoaLength(n: nat, k: nat)
    requires 0 < k && n < Pow10(k)
    ensures |Itoa(n)| <= k
  {
    if n >= 10 {
      assert k > 1;
      ItoaLength(n / 10, k - 1);
    }
  }

  /** Zeros at the end of a numeral are a power of ten. */
  lemma {:induction false} TrimZerosMeaning(s: string)
    requires IsDigits(s)
    ensures var t := TrimZeros(s);
            && IsDigits(t) && |t| <= |s| && Value(s) == Value(t) * Pow10(|s| - |t|)
            && (t != "" ==> t[|t| - 1] != '0')
  {
    if s != "" && s[|s| - 1] == '0' {
      var c := s[..|s| - 1];
      TrimZerosMeaning(c);
      var t := TrimZeros(c);
      Distribute(Value(t), Pow10(|c| - |t|), 0);
    }
  }

  lemma PaddedMeaning(digits: string, width: nat)
    requires IsDigits(digits) && |digits| <= width
    ensures |Padded(digits, width)| == width && IsDigits(Padded(digits, width))
    ensures Value(Padded(digits, width)) == Value(digits)
  {
    if |digits| < width {
      ZerosMeaning(width - |digits|);
      ValueConcat(Zeros(width - |digits|), digits);
    }
  }

  /** The printed fraction has the right shape and stands for the fraction. */
  lemma FracStrMeaning(frac: nat, decimals: nat)
    requires decimals > 0 && frac < Pow10(decimals)
    ensures var fp := FracStr(frac, decimals);
            && IsDigits(fp) && 1 <= |fp| <= decimals && (fp == "0" || fp[|fp| - 1] != '0')
            && Value(fp) * Pow10(decimals - |fp|) == frac
  {
    ItoaValue(frac);
    ItoaLength(frac, decimals);
    PaddedMeaning(Itoa(frac), decimals);
    TrimZerosMeaning(Padded(Itoa(frac), decimals));
    ZeroValue();
  }

  lemma ZeroValue()
    ensures Value("0") == 0 && Value("") == 0
  {
    assert "0"[..0] == "";
  }

  lemma {:induction false} NoDot(s: string)
    requires IsDigits(s)
    ensures '.' !in s && (s != "" ==> s[0] != '-')
  {
  }

  lemma ReadUnsignedParts(ip: string, fp: string, decimals: nat)
    requires IsDigits(ip) && |fp| <= decimals
    ensures ReadUnsigned(ip + "." + fp, decimals) == Value(ip) * Pow10(decimals) + Value(fp) * Pow10(decimals - |fp|)
  {
    var s := ip + "." + fp;
    NoDot(ip);
    IndexOfAfter(ip, '.', fp);
    assert s[..|ip|] == ip && s[|ip| + 1..] == fp;
  }

  /** Reading the parts of a printed amount. */
  lemma ReadParts(negative: bool, ip: string, fp: string, decimals: nat)
    requires IsDigits(ip) && ip != "" && |fp| <= decimals
    ensures var abs := Value(ip) * Pow10(decimals) + Value(fp) * Pow10(decimals - |fp|);
            ReadUnits(Signed(negative, ip + "." + fp), decimals) == if negative then -abs else abs
  {
    var body := ip + "." + fp;
    NoDot(ip);
    ReadUnsignedParts(ip, fp, decimals);
    assert ("-" + body)[1..] == body && body[0] == ip[0];
  }

  lemma FormatUnitsParts(amount: int, decimals: nat) returns (ip: string, fp: string)
    requires decimals > 0
    ensures FormatUnits(amount, decimals) == Signed(amount < 0, ip + "." + fp)
    ensures ip != "" && IsDigits(ip) && IsDigits(fp) && 1 <= |fp| <= decimals && (fp == "0" || fp[|fp| - 1] != '0')
    ensures Value(ip) * Pow10(decimals) + Value(fp) * Pow10(decimals - |fp|) == Abs(amount)
  {
    var (whole, frac) := DivMod(Abs(amount), Pow10(decimals));
    ItoaValue(whole);
    FracStrMeaning(frac, decimals);
    ip, fp := Itoa(whole), FracStr(frac, decimals);
  }

  /** Printing is exact: the text is well printed, and reading it back gives the amount. */
  lemma FormatUnitsExact(amount: int, decimals: nat)
    requires decimals > 0
    ensures WellPrinted(FormatUnits(amount, decimals), decimals)
    ensures ReadUnits(FormatUnits(amount, decimals), decimals) == amount
  {
    var ip, fp := FormatUnitsParts(amount, decimals);
    ReadParts(amount < 0, ip, fp, decimals);
    assert Printed(FormatUnits(amount, decimals), ip, fp, decimals);
  }

  /** For fixed decimals, different amounts print differently. */
  lemma FormatUnitsInjective(a: int, b: int, decimals: int)
    requires FormatUnits(a, decimals) == FormatUnits(b, decimals)
    ensures a == b
  {
    if decimals <= 0 {
      IntStrInjective(a, b);
    } else {
      FormatUnitsExact(a, decimals);
      FormatUnitsExact(b, decimals);
    }
  }
}

/** Decimal printing and scanning of Go's 64-bit `int`, as `%0*d` and `Sscanf("%d")` do them. */
module Decimal {
  import opened Text

  const MAX_INT := 0x7FFF_FFFF_FFFF_FFFF
  const MIN_INT := -0x8000_0000_0000_0000

  ghost predicate Int64(n: int) {
    MIN_INT <= n <= MAX_INT
  }

  /** Adding one to a 64-bit integer wraps around. */
  function Increment(n: int): int {
    if n == MAX_INT then MIN_INT else n + 1
  }

  function Digit(d: int): char
    requires 0 <= d < 10
  {
    '0' + d as char
  }

  function Digits(n: nat): string {
    if n < 10 then [Digit(n)] else Digits(n / 10) + [Digit(n % 10)]
  }

  function Zeros(k: int): string {
    if k <= 0 then "" else ['0'] + Zeros(k - 1)
  }

  function Padded(n: nat, width: int): string {
    Zeros(width - |Digits(n)|) + Digits(n)
  }

  /** Zero padding goes after the sign and counts the sign in the width. */
  function Format(n: int, width: int): string {
    if n < 0 then ['-'] + Padded(-n, width - 1) else Padded(n, width)
  }

  predicate AllDigits(s: string) {
    forall i :: 0 <= i < |s| ==> IsDigit(s[i])
  }

  function Value(s: string): nat
    requires AllDigits(s)
  {
    if s == "" then 0 else Value(s[..|s| - 1]) * 10 + (s[|s| - 1] as int - '0' as int)
  }

  function DigitRun(s: string): (r: string)
    ensures AllDigits(r)
  {
    if s == "" || !IsDigit(s[0]) then "" else [s[0]] + DigitRun(s[1..])
  }

  function Fit(v: int): int {
    if MIN_INT <= v <= MAX_INT then v else 0
  }

  function ScanSigned(t: string): int {
    if t == "" then 0
    else if t[0] == '-' then -(Value(DigitRun(t[1..])) as int)
    else if t[0] == '+' then Value(DigitRun(t[1..]))
    else Value(DigitRun(t))
  }

  /** The number at the start of a text; 0 when there is none or it does not fit. */
  function Scan(s: string): int {
    Fit(ScanSigned(TrimLeft(s)))
  }

  lemma {:induction false} DigitsValue(n: nat)
    ensures AllDigits(Digits(n)) && Digits(n) != "" && Value(Digits(n)) == n
  {
    if n >= 10 {
      DigitsValue(n / 10);
      var s := Digits(n);
      assert s[..|s| - 1] == Digits(n / 10);
    } else {
      assert Digits(n)[..0] == "";
    }
  }

  lemma {:induction false} ZerosAddNothing(k: int, s: string)
    requires AllDigits(s)
    ensures AllDigits(Zeros(k) + s) && Value(Zeros(k) + s) == Value(s)
  {
    if k <= 0 {
      assert Zeros(k) + s == s;
    } else {
      ZerosAddNothing(k - 1, s);
      LeadingZero(Zeros(k - 1) + s);
      assert Zeros(k) + s == ['0'] + (Zeros(k - 1) + s);
    }
  }

  lemma {:induction false} LeadingZero(s: string)
    requires AllDigits(s)
    ensures AllDigits(['0'] + s) && Value(['0'] + s) == Value(s)
  {
    var z := ['0'] + s;
    if s == "" {
      assert z[..0] == "";
    } else {
      LeadingZero(s[..|s| - 1]);
      assert z[..|z| - 1] == ['0'] + s[..|s| - 1];
    }
  }

  lemma PaddedValue(n: nat, width: int)
    ensures AllDigits(Padded(n, width)) && Padded(n, width) != "" && Value(Padded(n, width)) == n
  {
    DigitsValue(n);
    ZerosAddNothing(width - |Digits(n)|, Digits(n));
  }

  lemma {:induction false} DigitRunStops(s: string, rest: string)
    requires AllDigits(s) && (rest == "" || !IsDigit(rest[0]))
    ensures DigitRun(s + rest) == s
  {
    if s == "" {
      assert s + rest == rest;
    } else {
      assert (s + rest)[1..] == s[1..] + rest;
      DigitRunStops(s[1..], rest);
    }
  }

  lemma DigitsPrefix(body: string, rest: string)
    requires AllDigits(body) && body != "" && (rest == "" || !IsDigit(rest[0]))
    ensures var s := body + rest; ScanSigned(s) == Value(body) && TrimLeft(s) == s
    ensures var s := ['-'] + (body + rest); ScanSigned(s) == -(Value(body) as int) && TrimLeft(s) == s
  {
    hide Value, DigitRun;
    DigitRunStops(body, rest);
    assert (body + rest)[0] == body[0] && IsDigit(body[0]);
    assert (['-'] + (body + rest))[1..] == body + rest;
  }

  lemma SignedPrefix(n: int, width: int, rest: string)
    requires rest == "" || !IsDigit(rest[0])
    ensures ScanSigned(Format(n, width) + rest) == n
    ensures TrimLeft(Format(n, width) + rest) == Format(n, width) + rest
  {
    hide Value, ScanSigned, Padded, TrimLeft;
    if n < 0 {
      var body := Padded(-n, width - 1);
      PaddedValue(-n, width - 1);
      DigitsPrefix(body, rest);
      assert Format(n, width) + rest == ['-'] + (body + rest);
    } else {
      PaddedValue(n, width);
      DigitsPrefix(Padded(n, width), rest);
    }
  }

  /** Scanning reads a number at the start and ignores what follows it. */
  lemma ScanReadsPrefix(n: int, width: int, rest: string)
    requires Int64(n) && (rest == "" || !IsDigit(rest[0]))
    ensures Scan(Format(n, width) + rest) == n
  {
    hide ScanSigned, Format;
    SignedPrefix(n, width, rest);
  }

  /** Scanning undoes padded printing for every 64-bit number, also beyond the pad width. */
  lemma ScanUndoesFormat(n: int, width: int)
    requires Int64(n)
    ensures Scan(Format(n, width)) == n
  {
    ScanReadsPrefix(n, width, "");
    assert Format(n, width) + "" == Format(n, width);
  }

  /** Padding fills up to the width and never cuts; digits stand in their usual order. */
  lemma PaddedSamples()
    ensures Format(1, 4) == "0001" && Format(27, 3) == "027" && Format(8080, 1) == "8080"
  {
    hide Digit;
    DigitSamples();
    assert Digits(1) == [Digit(1)] && Digits(27) == [Digit(2)] + [Digit(7)];
    assert Digits(8080) == Digits(808) + [Digit(0)] && Digits(808) == Digits(80) + [Digit(8)];
    ZerosSamples();
  }

  lemma DigitSamples()
    ensures Digit(0) == '0' && Digit(1) == '1' && Digit(2) == '2' && Digit(7) == '7' && Digit(8) == '8'
    ensures Digits(80) == "80"
  {
    assert Digits(80) == Digits(8) + [Digit(0)];
  }

  lemma ZerosSamples()
    ensures Zeros(3) == "000" && Zeros(1) == "0" && Zeros(-3) == ""
  {
    assert Zeros(3) == ['0'] + Zeros(2) && Zeros(2) == ['0'] + Zeros(1) && Zeros(1) == ['0'] + Zeros(0);
  }

  /** Digits scan as their value, with or without a plus sign, and as zero when it does not fit in 64 bits. */
  lemma ScanDigits(s: string)
    requires AllDigits(s) && s != ""
    ensures Value(s) <= MAX_INT ==> Scan(s) == Value(s)
    ensures Value(s) > MAX_INT ==> Scan(s) == 0
    ensures Scan("+" + s) == Scan(s)
  {
    hide Value;
    DigitRunStops(s, "");
    assert s + "" == s && ("+" + s)[1..] == s && IsDigit(s[0]);
  }

  /** A text that does not start with a number scans as zero. */
  lemma ScanNothing(s: string)
    requires s != "" && !IsSpace(s[0]) && !IsDigit(s[0]) && s[0] != '-' && s[0] != '+'
    ensures Scan(s) == 0
  {
  }
}

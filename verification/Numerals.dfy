/** Decimal numerals: what writes them, what reads them, and that the two agree. */
module Numerals {
  function Digit(d: nat): char
    requires d < 10
  {
    '0' + d as char
  }

  predicate IsDigit(c: char) {
    '0' <= c <= '9'
  }

  function Dec(n: nat): (s: string)
    ensures |s| > 0
  {
    if n < 10 then [Digit(n)] else Dec(n / 10) + [Digit(n % 10)]
  }

  function DecInt(n: int): string {
    if n < 0 then "-" + Dec(-n) else Dec(n)
  }

  function DigitValue(c: char): nat {
    if IsDigit(c) then c as nat - '0' as nat else 0
  }

  predicate AllDigits(s: string) {
    forall i | 0 <= i < |s| :: IsDigit(s[i])
  }

  /** The number a run of digits stands for. */
  function ParseDec(s: string): nat {
    if s == "" then 0 else 10 * ParseDec(s[..|s| - 1]) + DigitValue(s[|s| - 1])
  }

  function Pow10(n: nat): (p: nat)
    ensures p > 0
  {
    if n == 0 then 1 else 10 * Pow10(n - 1)
  }

  lemma {:induction false} DecReads(n: nat)
    ensures AllDigits(Dec(n))
    ensures ParseDec(Dec(n)) == n
  {
    if n >= 10 {
      DecReads(n / 10);
      assert Dec(n)[..|Dec(n)| - 1] == Dec(n / 10);
    }
  }

  /** A number below 10^width takes at most `width` digits, and no other number does. */
  lemma {:induction false} DecFits(n: nat, width: nat)
    requires width > 0
    ensures |Dec(n)| <= width <==> n < Pow10(width)
  {
    if n >= 10 {
      if width > 1 {
        DecFits(n / 10, width - 1);
      } else {
        assert Pow10(1) == 10 * Pow10(0);
      }
    } else {
      assert Pow10(width) == 10 * Pow10(width - 1);
    }
  }

  function Zeros(n: nat): (s: string)
    ensures |s| == n
  {
    if n == 0 then "" else "0" + Zeros(n - 1)
  }

  /** `padStart(width, '0')`: never cuts. */
  function Pad(s: string, width: nat): string {
    if |s| >= width then s else Zeros(width - |s|) + s
  }

  lemma {:induction false} ZerosParse(n: nat)
    ensures forall i | 0 <= i < n :: Zeros(n)[i] == '0'
    ensures ParseDec(Zeros(n)) == 0
  {
    if n > 0 {
      ZerosParse(n - 1);
      assert Zeros(n)[..n - 1] == Zeros(n - 1);
    }
  }

  lemma {:induction false} LeadingZeros(zeros: string, s: string)
    requires forall i | 0 <= i < |zeros| :: zeros[i] == '0'
    requires ParseDec(zeros) == 0
    requires AllDigits(s)
    ensures AllDigits(zeros + s)
    ensures ParseDec(zeros + s) == ParseDec(s)
  {
    if s == "" {
      assert zeros + s == zeros;
    } else {
      var front := s[..|s| - 1];
      LeadingZeros(zeros, front);
      assert (zeros + s)[..|zeros + s| - 1] == zeros + front;
    }
  }

  /** A padded number has exactly `width` characters and reads as itself, as long as it fits. */
  lemma PadReads(n: nat, width: nat)
    requires width > 0
    ensures AllDigits(Pad(Dec(n), width))
    ensures ParseDec(Pad(Dec(n), width)) == n
    ensures |Pad(Dec(n), width)| == width <==> n < Pow10(width)
  {
    DecReads(n);
    DecFits(n, width);
    if |Dec(n)| < width {
      ZerosParse(width - |Dec(n)|);
      LeadingZeros(Zeros(width - |Dec(n)|), Dec(n));
    }
  }

  /** Runs of digits of one length that stand for the same number are the same. */
  lemma {:induction false} SameDigits(a: string, b: string)
    requires |a| == |b| && AllDigits(a) && AllDigits(b) && ParseDec(a) == ParseDec(b)
    ensures a == b
  {
    if a != "" {
      var n := |a| - 1;
      assert DigitValue(a[n]) < 10 && DigitValue(b[n]) < 10;
      SameDigits(a[..n], b[..n]);
      assert a == a[..n] + [a[n]] && b == b[..n] + [b[n]];
    }
  }

  lemma {:induction false} ParsedFits(s: string)
    requires AllDigits(s)
    ensures ParseDec(s) < Pow10(|s|)
  {
    if s != "" {
      assert DigitValue(s[|s| - 1]) < 10;
      ParsedFits(s[..|s| - 1]);
    }
  }

  /** A run of digits is the number it stands for, padded to its length. */
  lemma PadOfParsed(s: string)
    requires s != "" && AllDigits(s)
    ensures Pad(Dec(ParseDec(s)), |s|) == s
  {
    ParsedFits(s);
    PadReads(ParseDec(s), |s|);
    SameDigits(Pad(Dec(ParseDec(s)), |s|), s);
  }

  /** How many digits stand at the front of a text. */
  function DigitsLength(s: string): (n: nat)
    ensures n <= |s|
  {
    if s == "" || !IsDigit(s[0]) then 0 else 1 + DigitsLength(s[1..])
  }

  lemma {:induction false} DigitsStop(digits: string, rest: string)
    requires AllDigits(digits)
    requires rest != "" && !IsDigit(rest[0])
    ensures DigitsLength(digits + rest) == |digits|
  {
    if digits == "" {
      assert digits + rest == rest;
    } else {
      assert (digits + rest)[1..] == digits[1..] + rest;
      DigitsStop(digits[1..], rest);
    }
  }
}

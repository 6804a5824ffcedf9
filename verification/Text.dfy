/** Decimal numbers and zero padding as they appear in identifiers and in diff headers. */
module Text {

  function Digit(d: nat): char
    requires d < 10
  {
    ['0', '1', '2', '3', '4', '5', '6', '7', '8', '9'][d]
  }

  predicate IsDigit(c: char) {
    '0' <= c <= '9'
  }

  /** There are ten digits, and a digit is worth its place among them. */
  lemma TenDigits(c: char)
    ensures IsDigit(c) <==> exists d: nat :: d < 10 && c == "0123456789"[d]
    ensures forall d: nat :: d < 10 ==> IsDigit("0123456789"[d]) && DigitValue("0123456789"[d]) == d
  {
    if IsDigit(c) {
      assert c == "0123456789"[DigitValue(c)];
    }
  }

  function DigitValue(c: char): nat
    requires IsDigit(c)
  {
    c as nat - '0' as nat
  }

  predicate AllDigits(s: string) {
    forall c <- s :: IsDigit(c)
  }

  function Decimal(n: nat): (s: string)
    ensures s != "" && AllDigits(s)
  {
    if n < 10 then [Digit(n)] else Decimal(n / 10) + [Digit(n % 10)]
  }

  /** The number a string of digits stands for. */
  function Value(s: string): nat
    requires AllDigits(s)
  {
    if s == "" then 0 else 10 * Value(s[..|s| - 1]) + DigitValue(s[|s| - 1])
  }

  lemma {:induction false} ValueOfDecimal(n: nat)
    ensures Value(Decimal(n)) == n
  {
    if n >= 10 {
      ValueOfDecimal(n / 10);
      assert Decimal(n)[..|Decimal(n)| - 1] == Decimal(n / 10);
    }
  }

  function PadStart(s: string, width: nat): (r: string)
    ensures AllDigits(s) ==> AllDigits(r)
    decreases width - |s|
  {
    if |s| >= width then s else PadStart("0" + s, width)
  }

  lemma {:induction false} LeadingZero(s: string)
    requires AllDigits(s)
    ensures Value("0" + s) == Value(s)
  {
    if s == "" {
      assert "0"[..0] == "";
    } else {
      LeadingZero(s[..|s| - 1]);
      assert ("0" + s)[..|s|] == "0" + s[..|s| - 1];
    }
  }

  lemma {:induction false} PaddingKeepsValue(s: string, width: nat)
    requires AllDigits(s)
    ensures Value(PadStart(s, width)) == Value(s)
    decreases width - |s|
  {
    if |s| < width {
      LeadingZero(s);
      PaddingKeepsValue("0" + s, width);
    }
  }

  /** A prefix followed by a zero-padded number, such as `T001` or `BUG-012`. */
  function Numbered(prefix: string, n: nat, width: nat): string {
    prefix + PadStart(Decimal(n), width)
  }

  predicate Spells(digits: string, n: nat, width: nat) {
    AllDigits(digits) && Value(digits) == n && |digits| >= width
  }

  lemma {:induction false} PaddedIsLong(s: string, width: nat)
    ensures |PadStart(s, width)| >= width
    decreases width - |s|
  {
    if |s| < width {
      PaddedIsLong("0" + s, width);
    }
  }

  /** What stands behind the prefix spells the number, with as many digits as asked for at least. */
  lemma NumberedSpells(prefix: string, n: nat, width: nat)
    ensures exists digits: string :: Spells(digits, n, width) && Numbered(prefix, n, width) == prefix + digits
  {
    PaddedIsLong(Decimal(n), width);
    PaddingKeepsValue(Decimal(n), width);
    ValueOfDecimal(n);
    assert Spells(PadStart(Decimal(n), width), n, width);
  }

  /** Numbered identifiers are different for different numbers, however many digits they need. */
  lemma NumberedIsInjective(prefix: string, a: nat, b: nat, width: nat)
    ensures Numbered(prefix, a, width) == Numbered(prefix, b, width) ==> a == b
  {
    PaddingKeepsValue(Decimal(a), width);
    PaddingKeepsValue(Decimal(b), width);
    ValueOfDecimal(a);
    ValueOfDecimal(b);
    assert Numbered(prefix, a, width)[|prefix|..] == PadStart(Decimal(a), width);
    assert Numbered(prefix, b, width)[|prefix|..] == PadStart(Decimal(b), width);
  }
}

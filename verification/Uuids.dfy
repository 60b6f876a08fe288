/** 128-bit identifiers and their text form, section 4 of RFC 9562; decimal and hexadecimal text. */
module Uuids {
  const UUID_LIMIT: nat := 0x1_0000_0000_0000_0000_0000_0000_0000_0000

  type Uuid = n: nat | n < UUID_LIMIT witness 0

  const DIGITS := "0123456789abcdef"

  function DigitValue(c: char): nat {
    if '0' <= c <= '9' then c as nat - '0' as nat
    else if 'a' <= c <= 'f' then c as nat - 'a' as nat + 10
    else 0
  }

  lemma DigitRoundTrip(d: nat)
    requires d < 16
    ensures DigitValue(DIGITS[d]) == d
    ensures DIGITS[d] != '\n' && DIGITS[d] != ','
  {
  }

  function Power(base: nat, k: nat): nat {
    if k == 0 then 1 else base * Power(base, k - 1)
  }

  datatype Divided = Divided(quotient: nat, remainder: nat)

  function DivideBy(n: nat, base: nat): (r: Divided)
    requires base > 0
    ensures n == base * r.quotient + r.remainder && r.remainder < base
  {
    Divided(n / base, n % base)
  }

  /** The lowest k digits of n, most significant first. */
  function FixedText(base: nat, n: nat, k: nat): (s: string)
    requires 2 <= base <= 16
    ensures |s| == k
  {
    if k == 0 then ""
    else
      var r := DivideBy(n, base);
      FixedText(base, r.quotient, k - 1) + [DIGITS[r.remainder]]
  }

  /** All digits of n, most significant first, as `str(n)` writes a number in base 10. */
  function NumberText(base: nat, n: nat): string
    requires 2 <= base <= 16
  {
    if n < base then [DIGITS[n]]
    else
      var r := DivideBy(n, base);
      NumberText(base, r.quotient) + [DIGITS[r.remainder]]
  }

  function NumberValue(base: nat, s: string): nat {
    if s == "" then 0 else base * NumberValue(base, s[..|s| - 1]) + DigitValue(s[|s| - 1])
  }

  predicate Plain(s: string) {
    forall i :: 0 <= i < |s| ==> s[i] != '\n' && s[i] != ','
  }

  lemma AppendDigit(base: nat, s: string, r: Divided)
    requires r.remainder < 16 && NumberValue(base, s) == r.quotient && Plain(s)
    ensures NumberValue(base, s + [DIGITS[r.remainder]]) == base * r.quotient + r.remainder
    ensures Plain(s + [DIGITS[r.remainder]])
  {
    DigitRoundTrip(r.remainder);
    assert (s + [DIGITS[r.remainder]])[..|s|] == s;
  }

  lemma QuotientBelow(n: nat, base: nat, r: Divided, m: nat)
    requires n == base * r.quotient + r.remainder && n < base * m
    ensures r.quotient < m
  {
    if r.quotient >= m {
      MulAtLeast(m, r.quotient, base);
    }
  }

  lemma MulAtLeast(a: nat, b: nat, c: nat)
    requires a <= b
    ensures c * a <= c * b
  {
  }

  lemma {:induction false} FixedTextRoundTrip(base: nat, n: nat, k: nat)
    requires 2 <= base <= 16 && n < Power(base, k)
    ensures NumberValue(base, FixedText(base, n, k)) == n
    ensures Plain(FixedText(base, n, k))
  {
    hide NumberValue, DivideBy;
    if k > 0 {
      var r := DivideBy(n, base);
      QuotientBelow(n, base, r, Power(base, k - 1));
      FixedTextRoundTrip(base, r.quotient, k - 1);
      AppendDigit(base, FixedText(base, r.quotient, k - 1), r);
    } else {
      NothingIsZero(base);
    }
  }

  lemma NothingIsZero(base: nat)
    ensures NumberValue(base, "") == 0
  {
  }

  lemma {:induction false} NumberTextRoundTrip(base: nat, n: nat)
    requires 2 <= base <= 16
    ensures NumberValue(base, NumberText(base, n)) == n
    ensures NumberText(base, n) != "" && Plain(NumberText(base, n))
  {
    hide NumberValue, DivideBy;
    if n >= base {
      var r := DivideBy(n, base);
      NumberTextRoundTrip(base, r.quotient);
      AppendDigit(base, NumberText(base, r.quotient), r);
    } else {
      NothingIsZero(base);
      AppendDigit(base, "", Divided(0, n));
      assert "" + [DIGITS[n]] == [DIGITS[n]];
    }
  }

  function UuidText(u: Uuid): (s: string)
    ensures |s| == 36
  {
    var hex := FixedText(16, u, 32);
    hex[..8] + "-" + hex[8..12] + "-" + hex[12..16] + "-" + hex[16..20] + "-" + hex[20..]
  }

  /** The identifier that a 36-character text stands for. */
  function UuidValue(s: string): Uuid
    requires |s| == 36
  {
    var n := NumberValue(16, s[..8] + s[9..13] + s[14..18] + s[19..23] + s[24..]);
    if n < UUID_LIMIT then n else 0
  }

  lemma SixteenToThe32()
    ensures Power(16, 32) == UUID_LIMIT
  {
    assert Power(16, 8) == 0x1_0000_0000;
    assert Power(16, 16) == 0x1_0000_0000_0000_0000;
    assert Power(16, 24) == 0x1_0000_0000_0000_0000_0000_0000;
  }

  /** The five groups of a hyphenated text, put back together. */
  lemma GroupsRejoin(hex: string)
    requires |hex| == 32
    ensures var s := hex[..8] + "-" + hex[8..12] + "-" + hex[12..16] + "-" + hex[16..20] + "-" + hex[20..];
            s[..8] + s[9..13] + s[14..18] + s[19..23] + s[24..] == hex
  {
    var s := hex[..8] + "-" + hex[8..12] + "-" + hex[12..16] + "-" + hex[16..20] + "-" + hex[20..];
    assert s[..8] == hex[..8] && s[9..13] == hex[8..12] && s[14..18] == hex[12..16];
    assert s[19..23] == hex[16..20] && s[24..] == hex[20..];
    assert hex == hex[..8] + hex[8..12] + hex[12..16] + hex[16..20] + hex[20..];
  }

  lemma HyphensStayPlain(hex: string)
    requires |hex| == 32 && Plain(hex)
    ensures Plain(hex[..8] + "-" + hex[8..12] + "-" + hex[12..16] + "-" + hex[16..20] + "-" + hex[20..])
  {
  }

  lemma UuidTextRoundTrip(u: Uuid)
    ensures UuidValue(UuidText(u)) == u
    ensures Plain(UuidText(u))
  {
    hide FixedText, NumberValue, Power, Plain;
    SixteenToThe32();
    FixedTextRoundTrip(16, u, 32);
    GroupsRejoin(FixedText(16, u, 32));
    HyphensStayPlain(FixedText(16, u, 32));
  }
}

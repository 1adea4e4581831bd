/**
 * The query strings `?page=<N>` that the pagination bar hands to the page's
 * URL builder. `<N>` is the text a JavaScript template literal produces for an
 * integer: optional minus sign, then decimal digits without leading zeros.
 * The parser below reads the page number back from such a query and accepts
 * no other spelling, so a query is determined by the page it names.
 */
module PageQuery {
  import opened Wrappers

  const Prefix: string := "?page="

  predicate IsDigit(c: char) { '0' <= c <= '9' }

  predicate AllDigits(s: string) { forall i :: 0 <= i < |s| ==> IsDigit(s[i]) }

  /** Decimal digits as JavaScript writes a natural number: at least one, no leading zero. */
  predicate Canonical(s: string)
  {
    |s| >= 1 && AllDigits(s) && (|s| > 1 ==> s[0] != '0')
  }

  function DigitChar(d: nat): (c: char)
    requires d < 10
    ensures IsDigit(c)
  {
    ('0' as int + d) as char
  }

  function DigitValue(c: char): (d: nat)
    requires IsDigit(c)
    ensures d < 10
    ensures DigitChar(d) == c
  {
    (c as int - '0' as int) as nat
  }

  /** Decimal digits of a natural number, most significant first, no leading zero. */
  function NatToDecimal(n: nat): (s: string)
    ensures Canonical(s)
    ensures n > 0 ==> s[0] != '0'
    decreases n
  {
    if n < 10 then [DigitChar(n)] else NatToDecimal(n / 10) + [DigitChar(n % 10)]
  }

  /** The number a string of decimal digits denotes. */
  function DecimalValue(s: string): nat
    requires AllDigits(s)
  {
    if s == [] then 0 else DecimalValue(s[..|s| - 1]) * 10 + DigitValue(s[|s| - 1])
  }

  /**
   * The text of `${n}` for an integer `n`: a minus sign exactly for negative
   * numbers, then the digits of its magnitude without leading zeros.
   */
  function IntToText(n: int): (s: string)
    ensures n < 0 ==> |s| > 1 && s[0] == '-' && Canonical(s[1..]) && s[1] != '0'
    ensures n >= 0 ==> Canonical(s)
  {
    if n < 0 then "-" + NatToDecimal(-n) else NatToDecimal(n)
  }

  /**
   * Reads back an integer written as `IntToText` writes it; `None` for any
   * other text, including leading zeros and `-0`.
   */
  function ParseInt(s: string): Option<int>
  {
    if |s| > 1 && s[0] == '-' && Canonical(s[1..]) && s[1] != '0' then Some(-(DecimalValue(s[1..]) as int))
    else if Canonical(s) then Some(DecimalValue(s))
    else None
  }

  /** The query string `?page=${n}` built for a page link: the prefix, then the text of `n`. */
  function Query(n: int): (q: string)
    ensures |q| > |Prefix| && q[..|Prefix|] == Prefix && q[|Prefix|..] == IntToText(n)
  {
    Prefix + IntToText(n)
  }

  /** The page number a `?page=<N>` query names, if it is one. */
  function ParseQuery(q: string): Option<int>
  {
    if |q| >= |Prefix| && q[..|Prefix|] == Prefix then ParseInt(q[|Prefix|..]) else None
  }

  lemma {:induction false} DecimalRoundTrip(n: nat)
    ensures DecimalValue(NatToDecimal(n)) == n
    decreases n
  {
    var s := NatToDecimal(n);
    if n >= 10 {
      DecimalRoundTrip(n / 10);
      assert s[..|s| - 1] == NatToDecimal(n / 10);
    }
  }

  /** Digits that do not start with a zero denote a positive number. */
  lemma {:induction false} LeadingDigitPositive(s: string)
    requires |s| >= 1 && AllDigits(s) && s[0] != '0'
    ensures DecimalValue(s) >= 1
    decreases |s|
  {
    if |s| > 1 {
      LeadingDigitPositive(s[..|s| - 1]);
    }
  }

  /** Canonical digits are exactly what `NatToDecimal` writes for their value. */
  lemma {:induction false} DecimalCanonical(s: string)
    requires Canonical(s)
    ensures NatToDecimal(DecimalValue(s)) == s
    decreases |s|
  {
    var init, last := s[..|s| - 1], s[|s| - 1];
    if |s| > 1 {
      LeadingDigitPositive(init);
      DecimalCanonical(init);
      assert init + [last] == s;
    }
  }

  lemma IntTextRoundTrip(n: int)
    ensures ParseInt(IntToText(n)) == Some(n)
  {
    var s := IntToText(n);
    if n < 0 {
      DecimalRoundTrip(-n);
      assert s[1..] == NatToDecimal(-n);
    } else {
      DecimalRoundTrip(n);
      assert s[0] != '-' by { assert IsDigit(s[0]); }
    }
  }

  /** The only text `ParseInt` reads as `n` is the text of `n`. */
  lemma ParseIntCanonical(s: string, n: int)
    requires ParseInt(s) == Some(n)
    ensures s == IntToText(n)
  {
    if |s| > 1 && s[0] == '-' && Canonical(s[1..]) && s[1] != '0' {
      LeadingDigitPositive(s[1..]);
      DecimalCanonical(s[1..]);
      assert s == "-" + s[1..];
    } else {
      DecimalCanonical(s);
    }
  }

  /** Parsing a built query gives back the page number it was built from. */
  lemma QueryRoundTrip(n: int)
    ensures ParseQuery(Query(n)) == Some(n)
  {
    IntTextRoundTrip(n);
  }

  /** The only query that names page `n` is the one built for page `n`. */
  lemma QueryCanonical(q: string, n: int)
    requires ParseQuery(q) == Some(n)
    ensures q == Query(n)
  {
    ParseIntCanonical(q[|Prefix|..], n);
    assert q == q[..|Prefix|] + q[|Prefix|..];
  }

  /** Two page links get the same query exactly when they are for the same page. */
  lemma QueryInjective(a: int, b: int)
    ensures Query(a) == Query(b) <==> a == b
  {
    QueryRoundTrip(a);
    QueryRoundTrip(b);
  }
}

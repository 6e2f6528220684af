/** String building blocks the storefront relies on: how JavaScript writes an
    integer-valued number into a template literal or `Array.prototype.join`,
    and `join`/`split` on a one-character separator. Each printer is paired
    with a parser and a round-trip lemma. */
module Text {
  import opened Common

  predicate IsDigit(c: char) {
    '0' <= c <= '9'
  }

  predicate AllDigits(s: string) {
    forall i :: 0 <= i < |s| ==> IsDigit(s[i])
  }

  function DigitChar(d: nat): (c: char)
    requires d < 10
    ensures IsDigit(c)
  {
    ('0' as int + d) as char
  }

  function DigitValue(c: char): nat
    requires IsDigit(c)
  {
    c as int - '0' as int
  }

  /** The decimal digits of `n`, most significant first, without leading zeros. */
  function NatDigits(n: nat): (s: string)
    ensures |s| >= 1 && AllDigits(s)
    ensures |s| > 1 ==> s[0] != '0'
    decreases n
  {
    if n < 10 then [DigitChar(n)] else NatDigits(n / 10) + [DigitChar(n % 10)]
  }

  /** The value of a string of decimal digits (0 for the empty string). */
  function DigitsValue(s: string): nat
    requires AllDigits(s)
  {
    if s == [] then 0 else DigitsValue(s[..|s| - 1]) * 10 + DigitValue(s[|s| - 1])
  }

  lemma {:induction false} DigitsValueOfNatDigits(n: nat)
    ensures DigitsValue(NatDigits(n)) == n
    decreases n
  {
    if n >= 10 {
      DigitsValueOfNatDigits(n / 10);
      var s := NatDigits(n);
      assert s[..|s| - 1] == NatDigits(n / 10);
    }
  }

  /** How JavaScript renders an integer-valued number in `${n}` or in
      `Array.prototype.join`: an optional minus sign and the decimal digits. */
  function Decimal(n: int): (s: string)
    ensures |s| >= 1 && ',' !in s
  {
    if n < 0 then "-" + NatDigits(-n) else NatDigits(n)
  }

  /** Reads back what `Decimal` writes. */
  function ParseDecimal(s: string): Option<int> {
    if |s| >= 2 && s[0] == '-' && AllDigits(s[1..]) then Some(-(DigitsValue(s[1..]) as int))
    else if |s| >= 1 && AllDigits(s) then Some(DigitsValue(s))
    else None
  }

  lemma DecimalRoundTrip(n: int)
    ensures ParseDecimal(Decimal(n)) == Some(n)
  {
    var s := Decimal(n);
    if n < 0 {
      var digits := NatDigits(-n);
      assert s == "-" + digits && s[1..] == digits;
      DigitsValueOfNatDigits(-n);
      assert ParseDecimal(s) == Some(-(DigitsValue(digits) as int));
    } else {
      var digits := NatDigits(n);
      assert s == digits && IsDigit(s[0]) && s[0] != '-';
      DigitsValueOfNatDigits(n);
      assert ParseDecimal(s) == Some(DigitsValue(digits) as int);
    }
  }

  /** Distinct numbers are written as distinct strings. */
  lemma DecimalInjective(a: int, b: int)
    requires Decimal(a) == Decimal(b)
    ensures a == b
  {
    DecimalRoundTrip(a);
    DecimalRoundTrip(b);
  }

  /** `parts.join(sep)`: the empty array joins to the empty string. */
  function Join(parts: seq<string>, sep: char): string {
    if |parts| == 0 then []
    else if |parts| == 1 then parts[0]
    else parts[0] + [sep] + Join(parts[1..], sep)
  }

  /** `s.split(sep)`: the empty string splits into one empty part. */
  function Split(s: string, sep: char): (parts: seq<string>)
    ensures |parts| >= 1
  {
    if s == [] then [[]]
    else
      var rest := Split(s[1..], sep);
      if s[0] == sep then [[]] + rest else [[s[0]] + rest[0]] + rest[1..]
  }

  lemma {:induction false} SplitWithoutSeparator(p: string, sep: char)
    requires sep !in p
    ensures Split(p, sep) == [p]
    decreases |p|
  {
    if p != [] {
      SplitWithoutSeparator(p[1..], sep);
      assert [p[0]] + p[1..] == p;
    }
  }

  lemma {:induction false} SplitAfterPart(p: string, t: string, sep: char)
    requires sep !in p
    ensures Split(p + [sep] + t, sep) == [p] + Split(t, sep)
    decreases |p|
  {
    var s := p + [sep] + t;
    if p == [] {
      assert s[1..] == t;
    } else {
      assert s[1..] == p[1..] + [sep] + t;
      SplitAfterPart(p[1..], t, sep);
      assert [p[0]] + p[1..] == p;
    }
  }

  /** Splitting a join recovers the parts, as long as there is at least one
      part and no part contains the separator. */
  lemma {:induction false} SplitJoin(parts: seq<string>, sep: char)
    requires |parts| >= 1
    requires forall i :: 0 <= i < |parts| ==> sep !in parts[i]
    ensures Split(Join(parts, sep), sep) == parts
    decreases |parts|
  {
    if |parts| == 1 {
      SplitWithoutSeparator(parts[0], sep);
    } else {
      SplitJoin(parts[1..], sep);
      SplitAfterPart(parts[0], Join(parts[1..], sep), sep);
      assert [parts[0]] + parts[1..] == parts;
    }
  }

  /** Each number of `xs` written by `Decimal`, in order. */
  function DecimalAll(xs: seq<int>): (parts: seq<string>)
    ensures |parts| == |xs|
    ensures forall i :: 0 <= i < |xs| ==> parts[i] == Decimal(xs[i])
  {
    if xs == [] then [] else [Decimal(xs[0])] + DecimalAll(xs[1..])
  }

  /** Parses every part with `ParseDecimal`; `None` if any part fails. */
  function ParseAll(parts: seq<string>): Option<seq<int>> {
    if parts == [] then Some([])
    else match (ParseDecimal(parts[0]), ParseAll(parts[1..]))
      case (Some(x), Some(xs)) => Some([x] + xs)
      case _ => None
  }

  /** `xs.join(",")` for an array of integer-valued numbers. */
  function CommaList(xs: seq<int>): string {
    Join(DecimalAll(xs), ',')
  }

  /** A non-empty comma list reads back as the numbers it was made from. */
  lemma {:induction false} CommaListRoundTrip(xs: seq<int>)
    requires |xs| >= 1
    ensures ParseAll(Split(CommaList(xs), ',')) == Some(xs)
  {
    SplitJoin(DecimalAll(xs), ',');
    ParseAllDecimalAll(xs);
  }

  lemma {:induction false} ParseAllDecimalAll(xs: seq<int>)
    ensures ParseAll(DecimalAll(xs)) == Some(xs)
    decreases |xs|
  {
    if xs != [] {
      DecimalRoundTrip(xs[0]);
      ParseAllDecimalAll(xs[1..]);
      assert DecimalAll(xs)[1..] == DecimalAll(xs[1..]);
      assert [xs[0]] + xs[1..] == xs;
    }
  }
}

/** Which strings JavaScript's `Number(s)` reads as a number (rather than
    `NaN`) and which strings `BigInt(s)` accepts (rather than throwing a
    `SyntaxError`), following the StringNumericLiteral and
    StringIntegerLiteral grammars of ECMAScript 2024, sections 7.1.4.1 and
    7.1.14. Only acceptance is modelled, not the value read. */
module NumberSyntax {
  import opened Text

  /** WhiteSpace and LineTerminator code points (ECMAScript 2024, sections 12.2 and 12.3). */
  predicate IsWhite(c: char) {
    c == '\t' || c == '\n' || c == '\U{000B}' || c == '\U{000C}' || c == '\r' || c == ' ' ||
    c == '\U{00A0}' || c == '\U{1680}' || '\U{2000}' <= c <= '\U{200A}' ||
    c == '\U{2028}' || c == '\U{2029}' || c == '\U{202F}' || c == '\U{205F}' ||
    c == '\U{3000}' || c == '\U{FEFF}'
  }

  function TrimStart(s: string): (t: string)
    ensures |t| <= |s| && t == s[|s| - |t|..]
    ensures t != [] ==> !IsWhite(t[0])
  {
    if s != [] && IsWhite(s[0]) then TrimStart(s[1..]) else s
  }

  function TrimEnd(s: string): (t: string)
    ensures |t| <= |s| && t == s[..|t|]
    ensures t != [] ==> !IsWhite(t[|t| - 1])
  {
    if s != [] && IsWhite(s[|s| - 1]) then TrimEnd(s[..|s| - 1]) else s
  }

  /** Leading and trailing white space removed. */
  function Trim(s: string): string {
    TrimEnd(TrimStart(s))
  }

  predicate IsSign(c: char) {
    c == '+' || c == '-'
  }

  predicate Digits(s: string) {
    |s| >= 1 && AllDigits(s)
  }

  /** Decimal digits with an optional sign (SignedInteger). */
  predicate SignedDigits(s: string) {
    if |s| >= 1 && IsSign(s[0]) then Digits(s[1..]) else Digits(s)
  }

  /** The first index of `c` in `s`, or `|s|` when there is none. */
  function IndexOf(s: string, c: char): (k: nat)
    ensures k <= |s| && c !in s[..k]
    ensures k < |s| ==> s[k] == c
  {
    if s == [] then 0 else if s[0] == c then 0 else 1 + IndexOf(s[1..], c)
  }

  /** The first index of an exponent marker `e` or `E`, or `|s|`. */
  function ExponentAt(s: string): (k: nat)
    ensures k <= |s|
    ensures forall i :: 0 <= i < k ==> s[i] != 'e' && s[i] != 'E'
    ensures k < |s| ==> s[k] == 'e' || s[k] == 'E'
  {
    if s == [] then 0 else if s[0] == 'e' || s[0] == 'E' then 0 else 1 + ExponentAt(s[1..])
  }

  /** `123`, `123.`, `123.45` or `.45`. */
  predicate IsMantissa(m: string) {
    var d := IndexOf(m, '.');
    if d == |m| then Digits(m)
    else AllDigits(m[..d]) && AllDigits(m[d + 1..]) && (d > 0 || d + 1 < |m|)
  }

  /** StrUnsignedDecimalLiteral: `Infinity`, or a mantissa with an optional exponent. */
  predicate IsUnsignedDecimal(s: string) {
    s == "Infinity" ||
    var k := ExponentAt(s);
    IsMantissa(s[..k]) && (k == |s| || SignedDigits(s[k + 1..]))
  }

  /** StrDecimalLiteral: an optional sign, then an unsigned decimal literal. */
  predicate IsStrDecimal(s: string) {
    if |s| >= 1 && IsSign(s[0]) then IsUnsignedDecimal(s[1..]) else IsUnsignedDecimal(s)
  }

  predicate InRadix(s: string, radix: char) {
    forall i :: 0 <= i < |s| ==>
      if radix == 'b' then s[i] == '0' || s[i] == '1'
      else if radix == 'o' then '0' <= s[i] <= '7'
      else '0' <= s[i] <= '9' || 'a' <= s[i] <= 'f' || 'A' <= s[i] <= 'F'
  }

  /** NonDecimalIntegerLiteral without separators: `0b1`, `0o7`, `0xF` (no sign). */
  predicate IsNonDecimalInteger(s: string) {
    |s| >= 3 && s[0] == '0' &&
    ((s[1] in "bB" && InRadix(s[2..], 'b')) ||
     (s[1] in "oO" && InRadix(s[2..], 'o')) ||
     (s[1] in "xX" && InRadix(s[2..], 'x')))
  }

  /** `isNaN(Number(s))`: all-white strings read as 0, so only a trimmed text
      outside the numeric grammar is NaN. */
  predicate NumberIsNaN(s: string) {
    var t := Trim(s);
    !(t == [] || IsStrDecimal(t) || IsNonDecimalInteger(t))
  }

  /** `BigInt(s)` succeeds: all-white reads as 0n; otherwise a signed decimal
      integer or a non-decimal integer literal, with no fraction, exponent or
      `Infinity`. */
  predicate BigIntAccepts(s: string) {
    var t := Trim(s);
    t == [] || SignedDigits(t) || IsNonDecimalInteger(t)
  }

  lemma {:induction false} NoMarkerInDigits(s: string, c: char)
    requires AllDigits(s) && !IsDigit(c)
    ensures IndexOf(s, c) == |s|
    decreases |s|
  {
    if s != [] {
      NoMarkerInDigits(s[1..], c);
    }
  }

  lemma {:induction false} NoExponentInDigits(s: string)
    requires AllDigits(s)
    ensures ExponentAt(s) == |s|
    decreases |s|
  {
    if s != [] {
      NoExponentInDigits(s[1..]);
    }
  }

  lemma DigitsAreUnsignedDecimal(s: string)
    requires Digits(s)
    ensures IsUnsignedDecimal(s)
  {
    NoExponentInDigits(s);
    NoMarkerInDigits(s, '.');
    assert s[..|s|] == s;
  }

  /** Every string `BigInt` accepts is also a number to `Number`, so every
      such id passes the NaN check. */
  lemma BigIntAcceptedIsNumber(s: string)
    requires BigIntAccepts(s)
    ensures !NumberIsNaN(s)
  {
    var t := Trim(s);
    if t != [] && SignedDigits(t) {
      if IsSign(t[0]) {
        DigitsAreUnsignedDecimal(t[1..]);
      } else {
        DigitsAreUnsignedDecimal(t);
      }
    }
  }

  lemma TrimKeeps(s: string)
    requires s != [] && !IsWhite(s[0]) && !IsWhite(s[|s| - 1])
    ensures Trim(s) == s
  {
  }

  /** A plain run of decimal digits is a number to `Number` and an integer
      to `BigInt`. */
  lemma DigitsAreInteger(s: string)
    requires Digits(s)
    ensures !NumberIsNaN(s) && BigIntAccepts(s)
  {
    TrimKeeps(s);
    assert !IsSign(s[0]);
    BigIntAcceptedIsNumber(s);
  }

  /** A negative numeral is a number to `Number` and an integer to `BigInt`. */
  lemma NegativeNumeralIsInteger(d: string)
    requires Digits(d)
    ensures !NumberIsNaN("-" + d) && BigIntAccepts("-" + d)
  {
    var s := "-" + d;
    assert s[|s| - 1] == d[|d| - 1];
    TrimKeeps(s);
    assert s[1..] == d;
    BigIntAcceptedIsNumber(s);
  }

  lemma {:induction false} NoExponentMarker(s: string)
    requires forall i :: 0 <= i < |s| ==> s[i] != 'e' && s[i] != 'E'
    ensures ExponentAt(s) == |s|
    decreases |s|
  {
    if s != [] {
      NoExponentMarker(s[1..]);
    }
  }

  /** Digits, a point and digits form a number to `Number`, but never an
      integer to `BigInt`. */
  lemma FractionSyntax(a: string, b: string)
    requires Digits(a) && Digits(b)
    ensures IsStrDecimal(a + "." + b) && !SignedDigits(a + "." + b)
  {
    var s := a + "." + b;
    assert forall i :: 0 <= i < |s| ==> s[i] == '.' || IsDigit(s[i]) by {
      forall i | 0 <= i < |s| ensures s[i] == '.' || IsDigit(s[i]) {
        if i < |a| { assert s[i] == a[i]; }
        else if i > |a| { assert s[i] == b[i - |a| - 1]; }
      }
    }
    NoExponentMarker(s);
    assert s[|a|] == '.';
    var d := IndexOf(s, '.');
    assert d == |a|;
    assert s[..|s|] == s && s[..d] == a && s[d + 1..] == b;
    assert !IsSign(s[0]) by { assert s[0] == a[0]; }
  }

  /** A fractional numeral is a number to `Number`, but `BigInt` refuses it. */
  lemma FractionIsNumberNotInteger(a: string, b: string)
    requires Digits(a) && Digits(b)
    ensures !NumberIsNaN(a + "." + b) && !BigIntAccepts(a + "." + b)
  {
    var s := a + "." + b;
    assert s[0] == a[0] && s[|s| - 1] == b[|b| - 1];
    TrimKeeps(s);
    FractionSyntax(a, b);
    assert !IsNonDecimalInteger(s) by {
      if |a| == 1 { assert s[1] == '.'; } else { assert s[1] == a[1]; }
    }
  }

  /** Trimming a string of white space leaves nothing. */
  lemma {:induction false} AllWhiteTrimsAway(s: string)
    requires forall i :: 0 <= i < |s| ==> IsWhite(s[i])
    ensures TrimStart(s) == []
    decreases |s|
  {
    if s != [] {
      assert IsWhite(s[0]);
      AllWhiteTrimsAway(s[1..]);
    }
  }

  /** A blank id, made only of white space, reads as 0 to both `Number` and
      `BigInt`. */
  lemma BlankIsZero(s: string)
    requires forall i :: 0 <= i < |s| ==> IsWhite(s[i])
    ensures !NumberIsNaN(s) && BigIntAccepts(s)
  {
    AllWhiteTrimsAway(s);
  }

  /** Text that is not a numeral is NaN. */
  lemma WordIsNaN()
    ensures NumberIsNaN("abc")
  {
    assert Trim("abc") == "abc" by { TrimKeeps("abc"); }
    assert !IsUnsignedDecimal("abc") by {
      assert ExponentAt("abc") == 3 by {
        assert "abc"[1..] == "bc" && "bc"[1..] == "c" && "c"[1..] == [];
      }
      assert IndexOf("abc", '.') == 3 by {
        assert "abc"[1..] == "bc" && "bc"[1..] == "c" && "c"[1..] == [];
      }
      assert "abc"[..3] == "abc" && !IsDigit("abc"[0]);
    }
    assert !IsNonDecimalInteger("abc");
  }
}

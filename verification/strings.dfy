/** Byte strings and decimal text, shared by the lowering pass and the code generator.

    A C++ `std::string` is a sequence of `char`s; both passes only ever look at
    their byte values, so a string is modelled as a sequence of characters whose
    code is below 256.  `std::to_string` on the (non-negative) name counters and
    the byte printer of the code generator both produce decimal text, defined
    once here as `Decimal`, together with the parser that inverts it. */
module Strings {

  /** One C++ `char`, read as an unsigned byte. */
  type Char8 = c: char | c as int < 256 witness '\0'

  /** A C++ `std::string`. */
  type Text = seq<Char8>

  /** A nullable child pointer of the program tree. */
  datatype Option<+T> = None | Some(value: T)

  /** `std::isdigit` in the "C" locale. */
  predicate IsDigit(c: char) {
    '0' <= c <= '9'
  }

  predicate AllDigits(s: Text) {
    forall i :: 0 <= i < |s| ==> IsDigit(s[i])
  }

  /** The character `'0' + d`. */
  function Digit(d: nat): (c: Char8)
    requires d < 10
    ensures IsDigit(c)
  {
    (48 + d) as char
  }

  /** The value of a digit character (0 for any other character). */
  function DigitValue(c: char): (d: nat)
    ensures d < 10
    ensures IsDigit(c) ==> Digit(d) == c
  {
    if IsDigit(c) then c as int - 48 else 0
  }

  /** Decimal text of `n` with no leading zeros: what `std::to_string`
      produces for a non-negative integer. */
  function Decimal(n: nat): (r: Text)
    ensures 1 <= |r| && AllDigits(r)
    decreases n
  {
    if n < 10 then [Digit(n)] else Decimal(n / 10) + [Digit(n % 10)]
  }

  /** The decimal text of `n` has no leading zero, a single digit exactly
      for one-digit numbers, and at most three digits below 1000. */
  lemma {:induction false} DecimalShape(n: nat)
    ensures Decimal(n)[0] == '0' ==> n == 0
    ensures |Decimal(n)| == 1 <==> n < 10
    ensures n < 1000 ==> |Decimal(n)| <= 3
    decreases n
  {
    if n >= 10 {
      DecimalShape(n / 10);
      assert Decimal(n)[0] == Decimal(n / 10)[0];
    }
  }

  /** Reads a string of digits as a decimal number. */
  function ParseDecimal(s: Text): nat
    decreases |s|
  {
    if s == [] then 0 else 10 * ParseDecimal(s[..|s| - 1]) + DigitValue(s[|s| - 1])
  }

  /** Canonical decimal text: digits only, and no leading zero unless it is "0". */
  predicate IsDecimal(s: Text) {
    1 <= |s| && AllDigits(s) && (s[0] == '0' ==> |s| == 1)
  }

  /** Parsing the decimal text of `n` gives `n` back. */
  lemma {:induction false} ParseDecimalOfDecimal(n: nat)
    ensures ParseDecimal(Decimal(n)) == n
    decreases n
  {
    if n >= 10 {
      var r := Decimal(n);
      assert r[..|r| - 1] == Decimal(n / 10);
      ParseDecimalOfDecimal(n / 10);
    }
  }

  /** The other direction: canonical decimal text is the decimal text of its value. */
  lemma {:induction false} DecimalOfParseDecimal(s: Text)
    requires IsDecimal(s)
    ensures Decimal(ParseDecimal(s)) == s
    decreases |s|
  {
    if |s| > 1 {
      var p := s[..|s| - 1];
      assert IsDecimal(p);
      DecimalOfParseDecimal(p);
      ParseDecimalPositive(p);
      var n := ParseDecimal(s);
      assert n / 10 == ParseDecimal(p) && n % 10 == DigitValue(s[|s| - 1]);
      assert s == p + [s[|s| - 1]];
    }
  }

  /** Canonical decimal text that does not start with 0 denotes a positive number. */
  lemma {:induction false} ParseDecimalPositive(s: Text)
    requires IsDecimal(s) && s[0] != '0'
    ensures ParseDecimal(s) >= 1
    decreases |s|
  {
    if |s| > 1 {
      var p := s[..|s| - 1];
      assert p[0] == s[0];
      ParseDecimalPositive(p);
    }
  }

  /** Distinct numbers have distinct decimal texts. */
  lemma DecimalInjective(a: nat, b: nat)
    requires Decimal(a) == Decimal(b)
    ensures a == b
  {
    ParseDecimalOfDecimal(a);
    ParseDecimalOfDecimal(b);
  }

  /** A C++ string literal as the bytes it is stored as: each character
      taken as an unsigned byte.  Every literal of the code generator is
      ASCII, so this changes nothing (`AsTextOfBytes`); it only spares the
      verifier a character-by-character range check of long literals. */
  function AsText(s: string): Text {
    seq(|s|, i requires 0 <= i < |s| => (s[i] as int % 256) as char)
  }

  lemma AsTextOfBytes(s: string)
    requires forall i :: 0 <= i < |s| ==> s[i] as int < 256
    ensures AsText(s) == s
  {
  }

  /** Appending text is associative. */
  lemma AppendAssoc(a: Text, b: Text, c: Text)
    ensures a + b + c == a + (b + c)
  {
  }
}

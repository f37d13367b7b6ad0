/** Decimal text as the C library reads and writes it: `atoi` and `%d`. */
module CText {

  predicate IsDigit(c: char) {
    '0' <= c <= '9'
  }

  predicate IsSpace(c: char) {
    c == ' ' || '\t' <= c <= '\r'
  }

  function SkipSpaces(s: string): string {
    if |s| > 0 && IsSpace(s[0]) then SkipSpaces(s[1..]) else s
  }

  function ReadDigits(s: string, acc: int): int
    decreases |s|
  {
    if |s| > 0 && IsDigit(s[0]) then ReadDigits(s[1..], acc * 10 + (s[0] as int - '0' as int)) else acc
  }

  /** `atoi` on a value that fits an `int`: blanks, one sign, then the longest run of digits. */
  function Atoi(s: string): int {
    var t := SkipSpaces(s);
    if |t| > 0 && t[0] == '-' then -ReadDigits(t[1..], 0)
    else if |t| > 0 && t[0] == '+' then ReadDigits(t[1..], 0)
    else ReadDigits(t, 0)
  }

  function Digit(d: nat): (c: char)
    requires d < 10
    ensures IsDigit(c) && c as int == '0' as int + d
  {
    ('0' as int + d) as char
  }

  /** The decimal text of a natural number, without leading zeros. */
  function Decimal(n: nat): (s: string)
    ensures s != "" && forall i :: 0 <= i < |s| ==> IsDigit(s[i])
  {
    if n < 10 then [Digit(n)] else Decimal(n / 10) + [Digit(n % 10)]
  }

  lemma {:induction false} ReadAppend(s: string, d: nat, acc: int)
    requires d < 10 && forall i :: 0 <= i < |s| ==> IsDigit(s[i])
    ensures ReadDigits(s + [Digit(d)], acc) == ReadDigits(s, acc) * 10 + d
    decreases |s|
  {
    var t := s + [Digit(d)];
    if s == "" {
      assert t[1..] == "";
    } else {
      assert t[1..] == s[1..] + [Digit(d)];
      ReadAppend(s[1..], d, acc * 10 + (s[0] as int - '0' as int));
    }
  }

  lemma {:induction false} ReadDecimal(n: nat)
    ensures ReadDigits(Decimal(n), 0) == n
  {
    if n >= 10 {
      ReadDecimal(n / 10);
      ReadAppend(Decimal(n / 10), n % 10, 0);
    }
  }

  /** Reading back printed decimal text gives the number. */
  lemma AtoiDecimal(n: nat)
    ensures Atoi(Decimal(n)) == n
  {
    ReadDecimal(n);
  }

  // ---------------------------------------------------------------- what `atoi` makes of a text

  function Zeros(k: nat): string {
    if k == 0 then "" else "0" + Zeros(k - 1)
  }

  /** A number with leading zeros. */
  function Padded(k: nat, n: nat): (s: string)
    ensures s != ""
  {
    Zeros(k) + Decimal(n)
  }

  predicate AllDigits(s: string) {
    forall i :: 0 <= i < |s| ==> IsDigit(s[i])
  }

  lemma {:induction false} ZerosDigits(k: nat)
    ensures AllDigits(Zeros(k))
  {
    if k > 0 {
      ZerosDigits(k - 1);
    }
  }

  /** Reading stops at what is no digit. */
  lemma {:induction false} ReadStops(s: string, rest: string, acc: int)
    requires AllDigits(s) && (rest != "" ==> !IsDigit(rest[0]))
    ensures ReadDigits(s + rest, acc) == ReadDigits(s, acc)
    decreases |s|
  {
    if s == "" {
      assert s + rest == rest;
    } else {
      assert (s + rest)[1..] == s[1..] + rest;
      ReadStops(s[1..], rest, acc * 10 + (s[0] as int - '0' as int));
    }
  }

  lemma {:induction false} ReadZeros(k: nat, s: string)
    ensures ReadDigits(Zeros(k) + s, 0) == ReadDigits(s, 0)
  {
    if k == 0 {
      assert Zeros(k) + s == s;
    } else {
      assert (Zeros(k) + s)[1..] == Zeros(k - 1) + s;
      ReadZeros(k - 1, s);
    }
  }

  /** Leading zeros and what follows the digits do not matter. */
  lemma ReadPadded(k: nat, n: nat, rest: string)
    requires rest != "" ==> !IsDigit(rest[0])
    ensures ReadDigits(Padded(k, n) + rest, 0) == n
  {
    ZerosDigits(k);
    ReadStops(Padded(k, n), rest, 0);
    ReadZeros(k, Decimal(n));
    ReadDecimal(n);
  }

  /** The white space of the C locale: blank, tab, line feed, vertical tab, form feed, carriage return. */
  predicate IsBlank(c: char) {
    c == ' ' || c == '\t' || c == '\n' || c as int == 11 || c as int == 12 || c == '\r'
  }

  predicate Blank(s: string) {
    forall i :: 0 <= i < |s| ==> IsBlank(s[i])
  }

  lemma {:induction false} SkipBlanks(blanks: string, s: string)
    requires Blank(blanks) && (s != "" ==> !IsBlank(s[0]))
    ensures SkipSpaces(blanks + s) == s
  {
    if blanks == "" {
      assert blanks + s == s;
    } else {
      assert (blanks + s)[1..] == blanks[1..] + s;
      SkipBlanks(blanks[1..], s);
    }
  }

  datatype Sign = NoSign | Plus | Minus

  function SignText(sign: Sign): string {
    match sign
    case NoSign => ""
    case Plus => "+"
    case Minus => "-"
  }

  /** Blanks, a sign, a number with leading zeros, anything that is no digit: the value is the signed number. */
  lemma AtoiText(blanks: string, sign: Sign, k: nat, n: nat, rest: string)
    requires Blank(blanks) && (rest != "" ==> !IsDigit(rest[0]))
    ensures Atoi(blanks + (SignText(sign) + (Padded(k, n) + rest))) == Value(sign, n)
  {
    var number := Padded(k, n) + rest;
    var t := SignText(sign) + number;
    ZerosDigits(k);
    assert number[0] == Padded(k, n)[0] && IsDigit(number[0]);
    SkipBlanks(blanks, t);
    ReadPadded(k, n, rest);
    if sign.NoSign? {
      assert t == number;
    } else {
      assert t[1..] == number;
    }
  }

  /** A number with a sign and leading zeros. */
  function Signed(sign: Sign, k: nat, n: nat): string {
    SignText(sign) + Padded(k, n)
  }

  function Value(sign: Sign, n: nat): int {
    if sign.Minus? then -1 * n else n
  }

  /** Without blanks. */
  lemma AtoiSigned(sign: Sign, k: nat, n: nat, rest: string)
    requires rest != "" ==> !IsDigit(rest[0])
    ensures Atoi(Signed(sign, k, n) + rest) == Value(sign, n)
  {
    AtoiText("", sign, k, n, rest);
    assert "" + (SignText(sign) + (Padded(k, n) + rest)) == Signed(sign, k, n) + rest;
  }
}

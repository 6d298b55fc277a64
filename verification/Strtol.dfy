/** strtol with base 0, as far as a caller that stores the result in an int can tell. */
module Strtol {
  import opened Util

  function Digit(c: char): nat {
    if '0' <= c <= '9' then (c - '0') as nat
    else if 'a' <= c <= 'z' then (c - 'a') as nat + 10
    else if 'A' <= c <= 'Z' then (c - 'A') as nat + 10
    else 36
  }

  /** How many digits of the base a text begins with. */
  function DigitRun(s: string, base: nat): (n: nat)
    ensures n <= |s|
  {
    if s == "" || Digit(s[0]) >= base then 0 else 1 + DigitRun(s[1..], base)
  }

  function NumberOf(digits: string, base: nat): nat {
    if digits == "" then 0 else NumberOf(digits[..|digits| - 1], base) * base + Digit(digits[|digits| - 1])
  }

  function Blanks(s: string): (n: nat)
    ensures n <= |s|
  {
    if s == "" || (s[0] != ' ' && !(9 as char <= s[0] <= 13 as char)) then 0 else 1 + Blanks(s[1..])
  }

  /** The value of a long cut down to an int. */
  function ToInt(n: int): int {
    var m := n % 0x1_0000_0000;
    if m < 0x8000_0000 then m else m - 0x1_0000_0000
  }

  /** The text is marked as hexadecimal. */
  predicate Hex(t: string) {
    |t| > 2 && t[0] == '0' && (t[1] == 'x' || t[1] == 'X') && Digit(t[2]) < 16
  }

  /** The number that t begins with behind blanks and sign, and how much of t it takes: 0x or 0 for the base. */
  function ReadUnsigned(t: string): (r: (nat, nat))
    ensures r.1 <= |t|
  {
    var base := if Hex(t) then 16 else if t != "" && t[0] == '0' then 8 else 10;
    var from := if Hex(t) then 2 else 0;
    var n := DigitRun(t[from..], base);
    if n == 0 then (0, 0) else (NumberOf(t[from..][..n], base), from + n)
  }

  /** A number cut down to a long, and then to an int. */
  function Signed(v: nat, negative: bool): int {
    var n: int := v;
    ToInt(if negative then Max(-n, -0x8000_0000_0000_0000) else Min(n, 0x7fff_ffff_ffff_ffff))
  }

  /** The number that s begins with, and how much of s it takes, blanks and a sign included. */
  function ReadNumber(s: string): (r: (int, nat))
    ensures r.1 <= |s|
  {
    var i := Blanks(s);
    var negative := i < |s| && s[i] == '-';
    var j := if i < |s| && (s[i] == '-' || s[i] == '+') then i + 1 else i;
    var (v, used) := ReadUnsigned(s[j..]);
    if used == 0 then (0, 0) else (Signed(v, negative), j + used)
  }

  /** A number in decimal. */
  function Decimal(n: nat): (s: string)
    ensures s != ""
  {
    if n < 10 then [n as char + '0'] else Decimal(n / 10) + [(n % 10) as char + '0']
  }

  lemma {:induction false} DecimalDigits(n: nat)
    ensures forall i | 0 <= i < |Decimal(n)| :: '0' <= Decimal(n)[i] <= '9'
    ensures n > 0 ==> Decimal(n)[0] != '0'
    ensures NumberOf(Decimal(n), 10) == n
  {
    if n < 10 {
      assert Decimal(n)[..0] == "";
      assert NumberOf("", 10) == 0;
    } else {
      DecimalDigits(n / 10);
      assert Decimal(n)[..|Decimal(n)| - 1] == Decimal(n / 10);
    }
  }

  lemma {:induction false} RunEnds(digits: string, rest: string)
    requires (forall i | 0 <= i < |digits| :: '0' <= digits[i] <= '9') && (rest == "" || Digit(rest[0]) >= 10)
    ensures DigitRun(digits + rest, 10) == |digits|
  {
    if digits == "" {
      assert digits + rest == rest;
    } else {
      assert (digits + rest)[1..] == digits[1..] + rest;
      RunEnds(digits[1..], rest);
    }
  }

  lemma ReadsDigits(t: string, digits: string, k: nat)
    requires t != "" && '1' <= t[0] <= '9' && k == DigitRun(t, 10) && digits == t[..k]
    ensures ReadUnsigned(t) == (NumberOf(digits, 10), k) && k > 0
  {
    assert t[0..] == t;
  }

  lemma Front(digits: string, rest: string, s: string)
    requires digits != "" && s == digits + rest
    ensures s[0] == digits[0] && s[..|digits|] == digits
  {
  }

  lemma ReadsWritten(n: nat, digits: string, rest: string, t: string)
    requires n > 0 && digits == Decimal(n) && t == digits + rest && (rest == "" || Digit(rest[0]) >= 10)
    ensures ReadUnsigned(t) == (n, |digits|) && t != "" && '1' <= t[0] <= '9'
  {
    DecimalDigits(n);
    Front(digits, rest, t);
    assert '0' <= digits[0] <= '9' && digits[0] != '0';
    RunEnds(digits, rest);
    ReadsDigits(t, digits, |digits|);
  }

  lemma SignedIs(v: nat, negative: bool)
    requires v < 0x8000_0000
    ensures Signed(v, negative) == if negative then 0 - v else v
  {
  }

  /** A number behind a sign, or none. */
  lemma ReadsSigned(s: string, i: nat, t: string, sign: string, v: nat, used: nat)
    requires i == Blanks(s) && i + |sign| <= |s| && s[i + |sign|..] == t && ReadUnsigned(t) == (v, used)
    requires if sign == "" then i < |s| && s[i] != '-' && s[i] != '+'
        else (sign == "-" || sign == "+") && s[i] == sign[0]
    requires used > 0 && v < 0x8000_0000
    ensures ReadNumber(s).0 == (if sign == "-" then 0 - v else v) && ReadNumber(s).1 == i + |sign| + used
  {
    hide Blanks, ReadUnsigned, Signed;
    SignedIs(v, sign == "-");
  }

  lemma NoBlanks(s: string)
    requires s != "" && s[0] != ' ' && !(9 as char <= s[0] <= 13 as char)
    ensures Blanks(s) == 0
  {
  }

  /** A number without blanks or sign, and one right behind a minus sign. */
  lemma ReadsAlone(t: string, v: nat, used: nat)
    requires t != "" && '0' <= t[0] <= '9' && ReadUnsigned(t) == (v, used) && used > 0 && v < 0x8000_0000
    ensures ReadNumber(t) == (v, used)
  {
    NoBlanks(t);
    assert t[0 + |""|..] == t;
    ReadsSigned(t, 0, t, "", v, used);
  }

  lemma ReadsBehindMinus(t: string, s: string, v: nat, used: nat)
    requires s == "-" + t && ReadUnsigned(t) == (v, used) && used > 0 && v < 0x8000_0000
    ensures ReadNumber(s).0 + v == 0 && ReadNumber(s).1 == 1 + used
  {
    NoBlanks(s);
    assert s[0 + |"-"|..] == t;
    ReadsSigned(s, 0, t, "-", v, used);
  }

  lemma DecimalRead(n: nat, digits: string, rest: string, t: string)
    requires 0 < n < 0x8000_0000 && digits == Decimal(n) && t == digits + rest && (rest == "" || Digit(rest[0]) >= 10)
    ensures ReadNumber(t) == (n, |digits|)
  {
    ReadsWritten(n, digits, rest, t);
    ReadsAlone(t, n, |digits|);
  }

  /** A positive int written in decimal is read back, up to what follows it. */
  lemma ReadsDecimal(n: nat, rest: string)
    requires 0 < n < 0x8000_0000 && (rest == "" || Digit(rest[0]) >= 10)
    ensures ReadNumber(Decimal(n) + rest) == (n, |Decimal(n)|)
  {
    var t := Decimal(n) + rest;
    DecimalRead(n, Decimal(n), rest, t);
  }

  lemma ReadsZero()
    ensures ReadNumber("0") == (0, 1)
  {
    UnsignedZero();
    ReadsAlone("0", 0, 1);
  }

  lemma UnsignedZero()
    ensures ReadUnsigned("0") == (0, 1)
  {
    var t := "0";
    assert t[0..] == t && t[1..] == "" && t[..1] == t && t[..0] == "";
    assert DigitRun(t, 8) == 1 && NumberOf("", 8) == 0 && NumberOf(t, 8) == 0;
  }

  lemma NegativeRead(n: nat, digits: string, rest: string, t: string, s: string)
    requires 0 < n < 0x8000_0000 && digits == Decimal(n) && t == digits + rest && (rest == "" || Digit(rest[0]) >= 10)
    requires s == "-" + t
    ensures ReadNumber(s).0 + n == 0 && ReadNumber(s).1 == 1 + |digits|
  {
    ReadsWritten(n, digits, rest, t);
    ReadsBehindMinus(t, s, n, |digits|);
  }

  /** With a minus sign before it, it is its negative. */
  lemma ReadsNegative(n: nat, rest: string)
    requires 0 < n < 0x8000_0000 && (rest == "" || Digit(rest[0]) >= 10)
    ensures var r := ReadNumber("-" + (Decimal(n) + rest)); r.0 + n == 0 && r.1 == 1 + |Decimal(n)|
  {
    var t := Decimal(n) + rest;
    NegativeRead(n, Decimal(n), rest, t, "-" + t);
  }
}

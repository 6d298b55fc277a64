/** Numbers that strtol reads in any of its bases, with blanks and a sign before them. */
module StrtolBases {
  import opened Util
  import opened Strtol

  function DigitOf(d: nat): (c: char)
    requires d < 16
    ensures Digit(c) == d
  {
    if d < 10 then d as char + '0' else (d - 10) as char + 'a'
  }

  /** A number written in a base, most significant digit first. */
  function InBase(n: nat, base: nat): (s: string)
    requires 2 <= base <= 16
    ensures s != ""
  {
    if n < base then [DigitOf(n)] else InBase(n / base, base) + [DigitOf(n % base)]
  }

  /** How it is marked as one of that base. */
  function Mark(base: nat): string {
    if base == 16 then "0x" else if base == 8 then "0" else ""
  }

  lemma Divided(n: nat, base: nat)
    requires base >= 2
    ensures n == (n / base) * base + n % base && (n >= base ==> n / base > 0)
  {
  }

  lemma DigitBehind(front: string, last: char, base: nat)
    requires front != "" && Digit(front[0]) > 0 && Digit(last) < base
    requires forall i | 0 <= i < |front| :: Digit(front[i]) < base
    ensures forall i | 0 <= i <= |front| :: Digit((front + [last])[i]) < base
    ensures Digit((front + [last])[0]) > 0
  {
  }

  lemma {:induction false} InBaseDigits(n: nat, base: nat)
    requires 2 <= base <= 16
    ensures forall i | 0 <= i < |InBase(n, base)| :: Digit(InBase(n, base)[i]) < base
    ensures n > 0 ==> Digit(InBase(n, base)[0]) > 0
    decreases n
  {
    hide Digit, DigitOf;
    if n >= base {
      Divided(n, base);
      InBaseDigits(n / base, base);
      DigitBehind(InBase(n / base, base), DigitOf(n % base), base);
    }
  }

  lemma OneMoreDigit(front: string, d: nat, base: nat, s: string)
    requires d < 16 && s == front + [DigitOf(d)]
    ensures NumberOf(s, base) == NumberOf(front, base) * base + d
  {
    assert s[..|s| - 1] == front;
  }

  lemma OneDigit(n: nat, base: nat)
    requires n < base && 2 <= base <= 16
    ensures NumberOf(InBase(n, base), base) == n
  {
    assert [DigitOf(n)] == "" + [DigitOf(n)] && NumberOf("", base) == 0;
    OneMoreDigit("", n, base, InBase(n, base));
  }

  lemma InBaseStep(n: nat, base: nat, q: nat, r: nat)
    requires 2 <= base <= 16 && n >= base && q == n / base && r == n % base
    ensures NumberOf(InBase(n, base), base) == NumberOf(InBase(q, base), base) * base + r
  {
    OneMoreDigit(InBase(q, base), r, base, InBase(n, base));
  }

  predicate Known(base: nat) {
    base == 16 || base == 8 || base == 10
  }

  lemma {:induction false} InBaseIs(n: nat, base: nat)
    requires Known(base)
    ensures NumberOf(InBase(n, base), base) == n
    decreases n
  {
    hide InBase, NumberOf;
    if n < base {
      OneDigit(n, base);
    } else {
      Divided(n, base);
      InBaseIs(n / base, base);
      InBaseStep(n, base, n / base, n % base);
    }
  }

  /** A zero in front makes no difference. */
  lemma {:induction false} ZeroInFront(digits: string, base: nat)
    ensures NumberOf("0" + digits, base) == NumberOf(digits, base)
    decreases digits
  {
    var s := "0" + digits;
    if digits == "" {
      assert s[..0] == "" && NumberOf("", base) == 0 && s == "0";
    } else {
      var n := |digits| - 1;
      assert s[..|s| - 1] == "0" + digits[..n];
      ZeroInFront(digits[..n], base);
    }
  }

  lemma {:induction false} RunIs(digits: string, rest: string, all: string, base: nat)
    requires all == digits + rest && (forall i | 0 <= i < |digits| :: Digit(digits[i]) < base)
    requires rest == "" || Digit(rest[0]) >= base
    ensures DigitRun(all, base) == |digits|
  {
    if digits == "" {
      assert all == rest;
    } else {
      assert all[1..] == digits[1..] + rest;
      RunIs(digits[1..], rest, all[1..], base);
    }
  }

  predicate Blank(c: char) {
    c == ' ' || 9 as char <= c <= 13 as char
  }

  lemma {:induction false} BlanksAre(blanks: string, rest: string, all: string)
    requires all == blanks + rest && (forall i | 0 <= i < |blanks| :: Blank(blanks[i]))
        && (rest != "" ==> !Blank(rest[0]))
    ensures Blanks(all) == |blanks|
  {
    if blanks == "" {
      assert all == rest;
    } else {
      assert Blank(blanks[0]) && all[1..] == blanks[1..] + rest;
      forall i | 0 <= i < |blanks| - 1 ensures Blank(blanks[1..][i]) { assert Blank(blanks[i + 1]); }
      BlanksAre(blanks[1..], rest, all[1..]);
    }
  }

  /** A number that fits an int is kept, and any other loses a multiple of 2^32. */
  lemma IntIs(n: int, k: int)
    ensures -0x8000_0000 <= n < 0x8000_0000 ==> ToInt(n) == n
    ensures -0x8000_0000 <= ToInt(n) < 0x8000_0000 && ToInt(n + 0x1_0000_0000 * k) == ToInt(n)
  {
    assert (n + 0x1_0000_0000 * k) % 0x1_0000_0000 == n % 0x1_0000_0000;
  }

  /** From behind the sign on: which base it is, and how long the number. */
  lemma BaseIs(base: nat, digits: string, rest: string, t: string)
    requires Known(base)
    requires digits != "" && (forall i | 0 <= i < |digits| :: Digit(digits[i]) < base) && Digit(digits[0]) > 0
    requires (rest == "" || Digit(rest[0]) >= base) && t == Mark(base) + (digits + rest)
    ensures (Hex(t) <==> base == 16) && (!Hex(t) ==> (t != "" && t[0] == '0' <==> base == 8))
  {
    if base == 16 {
      assert t[2] == digits[0];
    } else if base == 8 {
      assert t[1] == digits[0];
    } else {
      assert t == digits + rest;
    }
  }

  lemma UnsignedParts(t: string, base: nat, from: nat, n: nat, tail: string)
    requires base == (if Hex(t) then 16 else if t != "" && t[0] == '0' then 8 else 10) && from == if Hex(t) then 2
        else 0
    requires tail == t[from..] && n == DigitRun(tail, base) > 0
    ensures ReadUnsigned(t) == (NumberOf(tail[..n], base), from + n)
  {
  }

  lemma TailIs(base: nat, digits: string, number: string, rest: string, t: string, from: nat, tail: string)
    requires Known(base)
    requires t == Mark(base) + (digits + rest) && from == (if base == 16 then 2 else 0) && tail == number + rest
    requires number == if base == 8 then "0" + digits else digits
    ensures from <= |t| && t[from..] == tail && tail[..|number|] == number
  {
    if base == 8 { assert t == "0" + digits + rest; } else if base == 10 { assert t == digits + rest; }
  }

  lemma MarkedNumber(base: nat, digits: string, number: string, rest: string, t: string)
    requires Known(base) && digits != "" && (forall i | 0 <= i < |digits| :: Digit(digits[i]) < base)
    requires Digit(digits[0]) > 0 && (rest == "" || Digit(rest[0]) >= base) && t == Mark(base) + (digits + rest)
    requires number == if base == 8 then "0" + digits else digits
    ensures ReadUnsigned(t) == (NumberOf(number, base), |Mark(base)| + |digits|) && t != "" && Digit(t[0]) < 10
  {
    var tail, from := number + rest, if base == 16 then 2 else 0;
    BaseIs(base, digits, rest, t);
    TailIs(base, digits, number, rest, t, from, tail);
    RunIs(number, rest, tail, base);
    UnsignedParts(t, base, from, |number|, tail);
    if base == 10 { assert t[0] == digits[0]; }
  }

  lemma ReadsMarked(n: nat, base: nat, digits: string, number: string, rest: string, t: string)
    requires Known(base) && n > 0 && digits == InBase(n, base)
    requires (rest == "" || Digit(rest[0]) >= base) && t == Mark(base) + (digits + rest)
    requires number == if base == 8 then "0" + digits else digits
    ensures ReadUnsigned(t) == (n, |Mark(base)| + |digits|) && t != "" && Digit(t[0]) < 10
  {
    InBaseDigits(n, base);
    InBaseIs(n, base);
    ZeroInFront(digits, base);
    MarkedNumber(base, digits, number, rest, t);
  }

  lemma Located(blanks: string, sign: string, t: string, s: string, i: nat)
    requires (forall k | 0 <= k < |blanks| :: Blank(blanks[k])) && (sign == "" || sign == "-" || sign == "+")
    requires t != "" && Digit(t[0]) < 10 && s == blanks + (sign + t) && i == |blanks|
    ensures Blanks(s) == i && i + |sign| <= |s| && s[i + |sign|..] == t
    ensures if sign == "" then i < |s| && s[i] != '-' && s[i] != '+' else s[i] == sign[0]
  {
    var after := sign + t;
    assert (sign == "" ==> after[0] == t[0]) && (sign != "" ==> after[0] == sign[0]);
    BlanksAre(blanks, after, s);
    assert s[i] == after[0] && s[i..] == after;
  }

  /** Any number but 0 that fits an int, written in decimal, octal or hexadecimal, with a sign or none and behind any
      blanks, is read up to what follows it. */
  lemma ReadsInBase(blanks: string, sign: string, n: nat, base: nat, rest: string, t: string, s: string)
    requires (forall i | 0 <= i < |blanks| :: Blank(blanks[i])) && (sign == "" || sign == "-" || sign == "+")
    requires Known(base) && 0 < n < 0x8000_0000 && (rest == "" || Digit(rest[0]) >= base)
    requires t == Mark(base) + (InBase(n, base) + rest) && s == blanks + (sign + t)
    ensures ReadNumber(s).0 == (if sign == "-" then 0 - n else n)
    ensures ReadNumber(s).1 == |blanks| + |sign| + |Mark(base)| + |InBase(n, base)|
  {
    var digits := InBase(n, base);
    ReadsMarked(n, base, digits, if base == 8 then "0" + digits else digits, rest, t);
    ReadsLocated(blanks, sign, t, s, n, |Mark(base)| + |digits|);
  }

  lemma ReadsLocated(blanks: string, sign: string, t: string, s: string, v: nat, used: nat)
    requires (forall k | 0 <= k < |blanks| :: Blank(blanks[k])) && (sign == "" || sign == "-" || sign == "+")
    requires t != "" && Digit(t[0]) < 10 && s == blanks + (sign + t)
    requires ReadUnsigned(t) == (v, used) && used > 0 && v < 0x8000_0000
    ensures ReadNumber(s).0 == (if sign == "-" then 0 - v else v) && ReadNumber(s).1 == |blanks| + |sign| + used
  {
    Located(blanks, sign, t, s, |blanks|);
    ReadsSigned(s, |blanks|, t, sign, v, used);
  }
}

/** m_properties_expand_string of m_property.c: templates with property values and conditional parts. */
module PropertyText {
  import opened Util

  /** What the expander asks of its surroundings: a property's printed value, whether a property can be
      read, and strtol over the at most two characters after \x (its value and how many it took). */
  datatype Oracle = Oracle(
    printed: string -> Option<string>,
    readable: string -> bool,
    hex: (char, Option<char>) -> (char, nat))

  /** strchr: where c first is, or the length of the text. */
  function Find(s: string, c: char): (i: nat)
    ensures i <= |s| && (forall j | 0 <= j < i :: s[j] != c) && (i < |s| ==> s[i] == c)
  {
    if s == [] || s[0] == c then 0 else 1 + Find(s[1..], c)
  }

  // ---------------------------------------------------------------- one turn of the scanner

  datatype Token =
    | Text(text: string, used: nat)                     // to be written out, unless skipping
    | Close                                             // the end of a conditional part
    | Open(name: string, negated: bool, used: nat)      // the head of one
    | PastEnd                                           // a backslash that is the last character

  const ESC: char := 27 as char

  function Escape(s: string, o: Oracle): (t: Token)
    requires s != [] && s[0] == '\\'
    ensures t == PastEnd <==> |s| == 1
    ensures t.PastEnd? || (t.Text? && 0 < t.used <= |s|)
  {
    if |s| == 1 then PastEnd
    else match s[1]
      case 'e' => Text([ESC], 2)
      case 'n' => Text("\n", 2)
      case 'r' => Text("\r", 2)
      case 't' => Text("\t", 2)
      case 'x' =>
        if |s| == 2 then Text("", 2)
        else
          var next := if |s| == 3 then None else Some(s[3]);
          var (c, taken) := o.hex(s[2], next);
          Text([c], 1 + Min(taken, if next.None? then 1 else 2))
      case c => Text([c], 2)
  }

  function Scan(s: string, lvl: nat, o: Oracle): (t: Token)
    requires s != []
    ensures t.Text? || t.Open? ==> 0 < t.used <= |s|
    ensures t.Close? ==> lvl > 0
  {
    if s[0] == '\\' then Escape(s, o)
    else if lvl > 0 && s[0] == ')' then Close
    else if |s| > 1 && s[0] == '$' && s[1] == '{' && Find(s[2..], '}') < |s| - 2 then
      var e := Find(s[2..], '}') + 2;
      var value := o.printed(s[2..e]);
      Text(if value.Some? then value.value else "", e + 1)
    else if |s| > 1 && s[0] == '?' && s[1] == '(' && Find(s[2..], ':') < |s| - 2 then
      var e := Find(s[2..], ':') + 2;
      var negated := s[2] == '!';
      Open(s[if negated then 3 else 2..e], negated, e + 1)
    else Text([s[0]], 1)
  }

  function Prepend(a: string, b: Option<string>): Option<string> {
    if b.None? then None else Some(a + b.value)
  }

  /** Does the conditional part with this head drop out? */
  predicate Drops(name: string, negated: bool, o: Oracle) {
    o.readable(name) == negated
  }

  /** How deep in conditional parts the scanner is, and whether it skips the one it entered at depth skipLvl. */
  datatype Mode = Mode(lvl: nat, skip: bool, skipLvl: nat)

  function After(m: Mode, t: Token, o: Oracle): Mode
    requires t.Close? ==> m.lvl > 0
  {
    match t
    case Close => Mode(m.lvl - 1, m.skip && m.lvl > m.skipLvl, m.skipLvl)
    case Open(name, negated, _) =>
      if !m.skip && Drops(name, negated, o) then Mode(m.lvl + 1, true, m.lvl + 1) else m.(lvl := m.lvl + 1)
    case _ => m
  }

  function Used(t: Token): nat {
    match t case Text(_, used) => used case Open(_, _, used) => used case _ => 1
  }

  function Written(m: Mode, t: Token): string {
    if t.Text? && !m.skip then t.text else ""
  }

  /** What the scanner writes from here on.  None: it reads past the end of the text. */
  function Expand(s: string, m: Mode, o: Oracle): Option<string>
    decreases s
  {
    if s == [] then Some("")
    else
      var t := Scan(s, m.lvl, o);
      if t == PastEnd then None else Prepend(Written(m, t), Expand(s[Used(t)..], After(m, t, o), o))
  }

  const TOP := Mode(0, false, 0)

  // ---------------------------------------------------------------- the loop and its buffer

  /** The buffer, made longer if need be, holds text after its first pos characters; there is always
      room for the closing zero. */
  method Write(buf: array<char>, pos: nat, text: string) returns (r: array<char>)
    requires pos < buf.Length
    modifies buf
    ensures pos + |text| < r.Length && (r == buf || fresh(r))
    ensures r[..pos + |text|] == old(buf[..pos]) + text
  {
    r := buf;
    if pos + |text| + 1 > buf.Length {
      r := new char[pos + |text| + 512](_ => 0 as char);
      forall i | 0 <= i < pos { r[i] := buf[i]; }
    }
    forall i | 0 <= i < |text| { r[pos + i] := text[i]; }
  }

  /** The switch of an escape at str[i]: what it stands for, and how much of it was read. */
  method ReadEscape(str: string, i: nat, o: Oracle) returns (p: string, used: nat)
    requires i + 1 < |str| && str[i] == '\\'
    ensures Escape(str[i..], o) == Text(p, used) && i + used <= |str|
  {
    var sl := 1;
    p := "";
    match str[i + 1] {
      case 'e' => p := [ESC];
      case 'n' => p := "\n";
      case 'r' => p := "\r";
      case 't' => p := "\t";
      case 'x' =>
        if i + 2 < |str| {
          var next := if i + 3 < |str| then Some(str[i + 3]) else None;
          var (c, taken) := o.hex(str[i + 2], next);
          sl := Min(taken, if next.None? then 1 else 2);
          p := [c];
        }
      case c => p := [c];
    }
    used := 1 + sl;
  }

  /** A piece of a text, and of its tail. */
  lemma Window(str: string, i: nat, j: nat, e: nat, s: string)
    requires i <= j <= e <= |str| && s == str[i..]
    ensures s[j - i..] == str[j..] && s[j - i..e - i] == str[j..e]
  {
  }

  /** The value of the property whose closing brace is at str[e]. */
  method ReadProperty(str: string, i: nat, e: nat, o: Oracle) returns (p: string)
    requires i + 1 < |str| && str[i] == '$' && str[i + 1] == '{' && e == i + 2 + Find(str[i + 2..], '}') < |str|
    ensures forall lvl: nat :: Scan(str[i..], lvl, o) == Text(p, e + 1 - i)
  {
    ghost var s := str[i..];
    Window(str, i, i + 2, e, s);
    p := "";
    var value := o.printed(str[i + 2..e]);
    if value.Some? { p := value.value; }
  }

  /** Enters the conditional part whose name ends at str[e]. */
  method EnterPart(str: string, i: nat, e: nat, lvl: nat, skip: bool, skipLvl: nat, o: Oracle)
    returns (skipNow: bool, skipLvlNow: nat)
    requires i + 1 < |str| && str[i] == '?' && str[i + 1] == '(' && e == i + 2 + Find(str[i + 2..], ':') < |str|
    ensures var t := Scan(str[i..], lvl, o);
      t.Open? && t.used == e + 1 - i && Mode(lvl + 1, skipNow, skipLvlNow) == After(Mode(lvl, skip, skipLvl), t, o)
  {
    ghost var s := str[i..];
    Window(str, i, i + 2, e, s);
    skipNow, skipLvlNow := skip, skipLvl;
    if !skip {
      var isNot := str[i + 2] == '!';
      var name := str[if isNot then i + 3 else i + 2..e];
      if isNot { Window(str, i, i + 3, e, s); }
      if !o.readable(name) {
        if !isNot { skipNow, skipLvlNow := true, lvl + 1; }
      } else if isNot {
        skipNow, skipLvlNow := true, lvl + 1;
      }
    }
  }

  lemma PrependNothing(b: Option<string>)
    ensures Prepend("", b) == b
  {
    if b.Some? { assert "" + b.value == b.value; }
  }

  lemma PrependTwice(a: string, b: string, c: Option<string>)
    ensures Prepend(a, Prepend(b, c)) == Prepend(a + b, c)
  {
    if c.Some? { assert a + (b + c.value) == a + b + c.value; }
  }

  /** One turn of the loop, in the scanner's terms. */
  lemma Turn(s: string, m: Mode, out: string, t: Token, rest: string, m': Mode, o: Oracle)
    requires s != "" && t == Scan(s, m.lvl, o) && t != PastEnd && rest == s[Used(t)..] && m' == After(m, t, o)
    ensures Prepend(out, Expand(s, m, o)) == Prepend(out + Written(m, t), Expand(rest, m', o))
  {
    PrependTwice(out, Written(m, t), Expand(rest, m', o));
  }

  /** What stands at str[i]: its text p, where it ends, and the state of the conditional parts after it. */
  method ReadPiece(str: string, i: nat, m: Mode, o: Oracle)
    returns (p: string, next: nat, lvl: nat, skip: bool, skipLvl: nat)
    requires i < |str| && Scan(str[i..], m.lvl, o) != PastEnd
    ensures var t := Scan(str[i..], m.lvl, o);
      && next == i + Used(t) <= |str| && Mode(lvl, skip, skipLvl) == After(m, t, o)
      && (if skip then "" else p) == Written(m, t)
  {
    ghost var s := str[i..];
    assert i + 1 < |str| ==> s[2..] == str[i + 2..];
    p, next, lvl, skip, skipLvl := "", i, m.lvl, m.skip, m.skipLvl;
    if str[i] == '\\' {
      var used;
      p, used := ReadEscape(str, i, o);
      next := i + used;
    } else if lvl > 0 && str[i] == ')' {
      if skip && lvl <= skipLvl { skip := false; }
      lvl, next := lvl - 1, i + 1;
    } else if i + 1 < |str| && str[i] == '$' && str[i + 1] == '{' && Find(str[i + 2..], '}') < |str| - i - 2 {
      var e := i + 2 + Find(str[i + 2..], '}');
      p := ReadProperty(str, i, e, o);
      next := e + 1;
    } else if i + 1 < |str| && str[i] == '?' && str[i + 1] == '(' && Find(str[i + 2..], ':') < |str| - i - 2 {
      var e := i + 2 + Find(str[i + 2..], ':');
      skip, skipLvl := EnterPart(str, i, e, lvl, skip, skipLvl, o);
      lvl, next := lvl + 1, e + 1;
    } else {
      p, next := [str[i]], i + 1;
    }
  }

  /** m_properties_expand_string */
  method ExpandString(str: string, o: Oracle) returns (ret: Option<string>)
    ensures ret == Expand(str, TOP, o)
  {
    var buf := new char[|str| + 512](_ => 0 as char);
    var i, pos, skip, lvl, skipLvl := 0, 0, false, 0, 0;
    ghost var all, out, rest := Expand(str, TOP, o), "", str;
    PrependNothing(all);
    while i < |str|
      invariant 0 <= i <= |str| && 0 <= pos < buf.Length && fresh(buf) && lvl >= 0 && skipLvl >= 0
      invariant buf[..pos] == out && rest == str[i..] && Prepend(out, Expand(rest, Mode(lvl, skip, skipLvl), o)) == all
    {
      var m := Mode(lvl, skip, skipLvl);
      ghost var t := Scan(rest, lvl, o);
      if str[i] == '\\' && i + 1 == |str| { return None; }
      ghost var behind, from := rest[Used(t)..], i;
      var p;
      p, i, lvl, skip, skipLvl := ReadPiece(str, i, m, o);
      Turn(rest, m, out, t, behind, Mode(lvl, skip, skipLvl), o);
      Window(str, from, i, |str|, rest);
      out, rest := out + Written(m, t), behind;
      if skip || |p| == 0 { continue; }
      buf := Write(buf, pos, p);
      pos := pos + |p|;
    }
    assert out + "" == out;
    buf[pos] := 0 as char;
    ret := Some(buf[..pos]);
  }
}

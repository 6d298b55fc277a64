/** What the flat scanner of PropertyText makes of nested templates. */
module PropertyTemplates {
  import opened Util
  import opened PropertyText

  /** A template: characters, escapes, property values, and parts kept or dropped as a whole. */
  datatype Part =
    | Char(c: char)
    | Quoted(c: char)     // a backslash, then the character itself
    | Control(c: char)    // a backslash, then the letter of a control character
    | Property(name: string)
    | Cond(negated: bool, name: string, body: seq<Part>)

  predicate PartOk(p: Part)
    decreases p, 1
  {
    match p
    case Char(c) => c !in "\\$?)"
    case Quoted(c) => c !in "enrtx"
    case Control(c) => c in "enrt"
    case Property(name) => '}' !in name
    case Cond(negated, name, body) => ':' !in name && (negated || name == "" || name[0] != '!') && PartsOk(body)
  }

  predicate PartsOk(parts: seq<Part>)
    decreases parts, 0
  {
    parts == [] || (PartOk(parts[0]) && PartsOk(parts[1..]))
  }

  /** How a template is written. */
  function TextOf(parts: seq<Part>): string
    decreases parts, 0
  {
    if parts == [] then "" else PartText(parts[0]) + TextOf(parts[1..])
  }

  function PartText(p: Part): string
    decreases p, 1
  {
    match p
    case Char(c) => [c]
    case Quoted(c) => ['\\', c]
    case Control(c) => ['\\', c]
    case Property(name) => "${" + name + "}"
    case Cond(negated, name, body) => Head(negated, name) + TextOf(body) + ")"
  }

  function Head(negated: bool, name: string): string {
    "?(" + (if negated then "!" else "") + name + ":"
  }

  /** What it means. */
  function Value(parts: seq<Part>, o: Oracle): string
    decreases parts, 0
  {
    if parts == [] then "" else PartValue(parts[0], o) + Value(parts[1..], o)
  }

  function PartValue(p: Part, o: Oracle): string
    decreases p, 1
  {
    match p
    case Char(c) => [c]
    case Quoted(c) => [c]
    case Control(c) => [if c == 'e' then ESC else if c == 'n' then '\n' else if c == 'r' then '\r' else '\t']
    case Property(name) => if o.printed(name).Some? then o.printed(name).value else ""
    case Cond(negated, name, body) => if o.readable(name) != negated then Value(body, o) else ""
  }

  lemma {:induction false} FindAfter(name: string, c: char, rest: string)
    requires c !in name
    ensures Find(name + [c] + rest, c) == |name|
  {
    var s := name + [c] + rest;
    if name != "" {
      assert s[1..] == name[1..] + [c] + rest;
      FindAfter(name[1..], c, rest);
    }
  }

  /** Where skipping began does not matter while nothing is skipped. */
  lemma {:induction false} SkipLvlUnused(s: string, lvl: nat, a: nat, b: nat, o: Oracle)
    ensures Expand(s, Mode(lvl, false, a), o) == Expand(s, Mode(lvl, false, b), o)
    decreases s
  {
    if s != "" {
      var t := Scan(s, lvl, o);
      if t != PastEnd {
        var m, n := After(Mode(lvl, false, a), t, o), After(Mode(lvl, false, b), t, o);
        if !m.skip { SkipLvlUnused(s[Used(t)..], m.lvl, m.skipLvl, n.skipLvl, o); }
      }
    }
  }

  /** One step over a text that begins with what the scanner reads as t. */
  lemma ExpandToken(head: string, rest: string, m: Mode, t: Token, o: Oracle)
    requires head != "" && Scan(head + rest, m.lvl, o) == t && t != PastEnd && Used(t) == |head|
    ensures Expand(head + rest, m, o) == Prepend(Written(m, t), Expand(rest, After(m, t, o), o))
  {
    assert (head + rest)[|head|..] == rest;
  }

  ghost predicate Standing(m: Mode) {
    m.skip ==> m.skipLvl <= m.lvl
  }

  /** Reading the template parts writes their value, or nothing while skipping, and leaves the state as it was. */
  lemma {:induction false} ExpandParts(parts: seq<Part>, rest: string, m: Mode, o: Oracle)
    requires PartsOk(parts) && Standing(m)
    ensures Expand(TextOf(parts) + rest, m, o) == Prepend(if m.skip then "" else Value(parts, o), Expand(rest, m, o))
    decreases parts, 0
  {
    if parts == [] {
      PrependNothing(Expand(rest, m, o));
      assert "" + rest == rest;
    } else {
      var first, more := PartText(parts[0]), TextOf(parts[1..]);
      assert TextOf(parts) + rest == first + (more + rest);
      ExpandPart(parts[0], more + rest, m, o);
      ExpandParts(parts[1..], rest, m, o);
      assert "" + "" == "";
      PrependTwice(if m.skip then "" else PartValue(parts[0], o), if m.skip then "" else Value(parts[1..], o),
          Expand(rest, m, o));
    }
  }

  lemma {:induction false} ExpandPart(p: Part, rest: string, m: Mode, o: Oracle)
    requires PartOk(p) && Standing(m)
    ensures Expand(PartText(p) + rest, m, o) == Prepend(if m.skip then "" else PartValue(p, o), Expand(rest, m, o))
    decreases p, 1
  {
    var text := PartText(p);
    match p
    case Char(c) =>
      assert (text + rest)[0] == c;
      ExpandToken(text, rest, m, Text([c], 1), o);
    case Quoted(c) =>
      assert (text + rest)[0] == '\\' && (text + rest)[1] == c;
      ExpandToken(text, rest, m, Text([c], 2), o);
    case Control(c) =>
      assert (text + rest)[0] == '\\' && (text + rest)[1] == c;
      ExpandToken(text, rest, m, Text(PartValue(p, o), 2), o);
    case Property(name) =>
      ScanProperty(name, rest, m.lvl, o);
      ExpandToken(text, rest, m, Text(PartValue(p, o), |text|), o);
    case Cond(negated, name, body) =>
      ExpandCond(negated, name, body, rest, m, o);
  }

  lemma ScanProperty(name: string, rest: string, lvl: nat, o: Oracle)
    requires '}' !in name
    ensures Scan(PartText(Property(name)) + rest, lvl, o) == Text(PartValue(Property(name), o), |name| + 3)
  {
    var s := PartText(Property(name)) + rest;
    FindAfter(name, '}', rest);
    assert s[2..] == name + "}" + rest;
    assert s[2..|name| + 2] == name;
  }

  lemma ScanHead(negated: bool, name: string, more: string, lvl: nat, o: Oracle)
    requires ':' !in name && (negated || name == "" || name[0] != '!')
    ensures Scan(Head(negated, name) + more, lvl, o) == Open(name, negated, |Head(negated, name)|)
  {
    var bang := if negated then "!" else "";
    var s := Head(negated, name) + more;
    FindAfter(bang + name, ':', more);
    assert s[2..] == bang + name + ":" + more && s[0] == '?' && s[1] == '(';
    assert s[2] == '!' <==> negated by { assert s[2] == s[2..][0]; }
    assert s[2 + |bang|..|Head(negated, name)| - 1] == name;
  }

  /** A conditional part, nested ones and all: the depth counter finds its own closing parenthesis. */
  lemma {:induction false} ExpandCond(negated: bool, name: string, body: seq<Part>, rest: string, m: Mode, o: Oracle)
    requires PartOk(Cond(negated, name, body)) && Standing(m)
    ensures var p := Cond(negated, name, body);
      Expand(PartText(p) + rest, m, o) == Prepend(if m.skip then "" else PartValue(p, o), Expand(rest, m, o))
    decreases body, 2
  {
    var head, more := Head(negated, name), TextOf(body) + (")" + rest);
    var t := Open(name, negated, |head|);
    assert PartText(Cond(negated, name, body)) + rest == head + more;
    ScanHead(negated, name, more, m.lvl, o);
    ExpandToken(head, more, m, t, o);
    var inside := After(m, t, o);
    PrependNothing(Expand(more, inside, o));
    ExpandParts(body, ")" + rest, inside, o);
    ExpandClose(rest, inside, m, o);
  }

  /** The parenthesis that closes a part entered in state m brings the scanner back to m. */
  lemma ExpandClose(rest: string, inside: Mode, m: Mode, o: Oracle)
    requires Standing(m) && inside.lvl == m.lvl + 1
    requires if m.skip then inside == m.(lvl := m.lvl + 1) else inside.skip ==> inside.skipLvl == inside.lvl
    ensures Expand(")" + rest, inside, o) == Expand(rest, m, o)
    ensures Prepend("", Expand(rest, m, o)) == Expand(rest, m, o)
  {
    ExpandToken(")", rest, inside, Close, o);
    var after := After(inside, Close, o);
    PrependNothing(Expand(rest, after, o));
    if m.skip { assert after == m; } else { SkipLvlUnused(rest, m.lvl, after.skipLvl, m.skipLvl, o); }
    PrependNothing(Expand(rest, m, o));
  }

  /** Expanding a template, nested to any depth, gives what it means. */
  lemma TemplatesExpand(parts: seq<Part>, o: Oracle)
    requires PartsOk(parts)
    ensures Expand(TextOf(parts), TOP, o) == Some(Value(parts, o))
  {
    ExpandParts(parts, "", TOP, o);
    assert TextOf(parts) + "" == TextOf(parts) && Value(parts, o) + "" == Value(parts, o);
  }

  /** Behind \x the scanner reads a number and then goes on one character too early: what is left of the text begins
      with the last digit that was taken, or with the x itself when there was none. */
  lemma HexLeavesOne(text: string, m: Mode, o: Oracle, n: nat, rest: string)
    requires |text| > 2 && text[0] == '\\' && text[1] == 'x'
    requires n == Min(o.hex(text[2], if |text| == 3 then None else Some(text[3])).1, if |text| == 3 then 1 else 2)
    requires n + 2 <= |text| && rest == text[n + 2..]
    ensures var c := o.hex(text[2], if |text| == 3 then None else Some(text[3])).0;
      Expand(text, m, o) == Prepend(if m.skip then "" else [c], Expand([text[n + 1]] + rest, m, o))
  {
    var c := o.hex(text[2], if |text| == 3 then None else Some(text[3])).0;
    assert text[n + 1..] == [text[n + 1]] + rest;
    assert Scan(text, m.lvl, o) == Text([c], 1 + n);
  }

  /** What \x should mean: the character, and then the text behind the digits that were taken; nothing at the end of
      the text. */
  function HexMeans(text: string, m: Mode, o: Oracle): Option<string>
    requires |text| >= 2
  {
    if |text| == 2 then Some("")
    else
      var (c, taken) := o.hex(text[2], if |text| == 3 then None else Some(text[3]));
      Prepend(if m.skip then "" else [c], Expand(text[Min(taken, if |text| == 3 then 1 else 2) + 2..], m, o))
  }

  /** The last character that strtol takes, or the x. */
  function LastTaken(text: string, o: Oracle): char
    requires |text| > 2
  {
    text[1 + Min(o.hex(text[2], if |text| == 3 then None else Some(text[3])).1, if |text| == 3 then 1 else 2)]
  }

  lemma PrependLonger(a: string, d: char, r: Option<string>)
    ensures Prepend(a, Prepend([d], r)) == Prepend(a, r) <==> r == None
  {
    if r.Some? { assert |a + ([d] + r.value)| == |a + r.value| + 1; }
  }

  /** It means that exactly when it ends the text, lies in a part that is dropped, or has a text behind it that is read
      past its end; if the last character taken is a digit, sign or blank, as it is for strtol. */
  lemma HexRightIff(text: string, m: Mode, o: Oracle, rest: string)
    requires |text| >= 2 && text[0] == '\\' && text[1] == 'x'
    requires |text| > 2 ==> LastTaken(text, o) !in "\\$?)"
    requires |text| > 2 ==> var taken := o.hex(text[2], if |text| == 3 then None else Some(text[3])).1;
      rest == text[Min(taken, if |text| == 3 then 1 else 2) + 2..]
    ensures Expand(text, m, o) == HexMeans(text, m, o) <==> |text| == 2 || m.skip || Expand(rest, m, o) == None
  {
    if |text| == 2 {
      assert text == "\\x";
      HexAtEnd(m, o);
    } else {
      var (c, taken) := o.hex(text[2], if |text| == 3 then None else Some(text[3]));
      var n, d := Min(taken, if |text| == 3 then 1 else 2), LastTaken(text, o);
      HexLeavesOne(text, m, o, n, rest);
      assert ([d] + rest)[0] == d && Scan([d] + rest, m.lvl, o) == Text([d], 1);
      ExpandToken([d], rest, m, Text([d], 1), o);
      PrependLonger([c], d, Expand(rest, m, o));
      PrependNothing(Expand(rest, m, o));
    }
  }

  lemma HexAtEnd(m: Mode, o: Oracle)
    ensures Expand("\\x", m, o) == Some("")
  {
    var t := Text("", 2);
    assert Scan("\\x", m.lvl, o) == t && "\\x"[2..] == "";
    assert Expand("", After(m, t, o), o) == Some("") && "" + "" == "";
  }

  // ---------------------------------------------------------------- text that is no template

  /** At the i-th character of all nothing begins: no escape, no property with its closing brace, no conditional part
      with its colon; and in a conditional part nothing ends. */
  predicate Inert(all: string, i: nat, inside: bool)
    requires i < |all|
  {
    && all[i] != '\\' && (inside ==> all[i] != ')')
    && !(all[i] == '$' && i + 1 < |all| && all[i + 1] == '{' && exists j | i + 2 <= j < |all| :: all[j] == '}')
    && !(all[i] == '?' && i + 1 < |all| && all[i + 1] == '(' && exists j | i + 2 <= j < |all| :: all[j] == ':')
  }

  lemma InertScans(s: string, lvl: nat, o: Oracle)
    requires s != "" && Inert(s, 0, lvl > 0)
    ensures Scan(s, lvl, o) == Text([s[0]], 1)
  {
    if |s| > 1 {
      var b, c := Find(s[2..], '}'), Find(s[2..], ':');
      assert b < |s| - 2 ==> s[b + 2] == '}';
      assert c < |s| - 2 ==> s[c + 2] == ':';
    }
  }

  lemma InertTail(all: string, i: nat, inside: bool)
    requires i < |all| - 1 && Inert(all, i + 1, inside)
    ensures Inert(all[1..], i, inside)
  {
    var rest := all[1..];
    if exists j | i + 2 <= j < |rest| :: rest[j] == '}' {
      var j :| i + 2 <= j < |rest| && rest[j] == '}';
      assert all[j + 1] == '}';
    }
    if exists j | i + 2 <= j < |rest| :: rest[j] == ':' {
      var j :| i + 2 <= j < |rest| && rest[j] == ':';
      assert all[j + 1] == ':';
    }
  }

  lemma InertOne(c: char, after: string, all: string, m: Mode, inside: bool, o: Oracle)
    requires all == [c] + after && inside == (m.lvl > 0) && Inert(all, 0, inside)
    ensures Expand(all, m, o) == Prepend(if m.skip then "" else [c], Expand(after, m, o))
  {
    InertScans(all, m.lvl, o);
    ExpandToken([c], after, m, Text([c], 1), o);
  }

  lemma InertRest(all: string, after: string, n: nat, inside: bool)
    requires all != "" && after == all[1..] && n < |all| && forall i | 0 <= i < n + 1 :: Inert(all, i, inside)
    ensures n <= |after| && forall i | 0 <= i < n :: Inert(after, i, inside)
  {
    forall i | 0 <= i < n ensures Inert(after, i, inside) {
      assert Inert(all, i + 1, inside);
      InertTail(all, i, inside);
    }
  }

  /** Text at which nothing begins or ends is written out as it is, dollar signs, question marks, braces and
      parentheses too; or, in a part that is dropped, not at all. */
  lemma {:induction false} InertStays(text: string, rest: string, all: string, m: Mode, inside: bool, o: Oracle)
    requires all == text + rest && inside == (m.lvl > 0) && forall i | 0 <= i < |text| :: Inert(all, i, inside)
    ensures Expand(all, m, o) == Prepend(if m.skip then "" else text, Expand(rest, m, o))
    decreases text
  {
    if text == "" {
      assert all == rest;
      PrependNothing(Expand(rest, m, o));
    } else {
      var c, tail := text[0], text[1..];
      var after := tail + rest;
      assert all == [c] + after && all[1..] == after && text == [c] + tail;
      assert Inert(all, 0, inside);
      InertOne(c, after, all, m, inside, o);
      InertRest(all, after, |tail|, inside);
      InertStays(tail, rest, after, m, inside, o);
      PrependTwice(if m.skip then "" else [c], if m.skip then "" else tail, Expand(rest, m, o));
      assert "" + "" == "";
    }
  }

  /** So a text with nothing to expand means itself. */
  lemma InertMeansItself(text: string, o: Oracle)
    requires forall i | 0 <= i < |text| :: Inert(text, i, false)
    ensures Expand(text, TOP, o) == Some(text)
  {
    assert text + "" == text;
    InertStays(text, "", text, TOP, false, o);
  }

  /** Any text at all can be written as a template. */
  function Literal(s: string): (r: seq<Part>)
    ensures PartsOk(r)
  {
    if s == "" then [] else [if s[0] in "enrtx" then Char(s[0]) else Quoted(s[0])] + Literal(s[1..])
  }

  lemma {:induction false} LiteralMeansItself(s: string, o: Oracle)
    ensures Value(Literal(s), o) == s
  {
    if s != "" {
      assert Literal(s)[1..] == Literal(s[1..]);
      LiteralMeansItself(s[1..], o);
    }
  }
}

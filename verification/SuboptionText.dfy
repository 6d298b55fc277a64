/** Writing suboptions so that parse_subconf reads them back. */
module SuboptionText {
  import opened Util
  import opened Strtol
  import opened Suboptions

  /** How a value is written: as it is, in quotes, or behind its length. */
  datatype Style = Plain | Quoted | Counted

  datatype Entry = Entry(sub: Sub, style: Style)

  predicate NameOk(name: string) {
    ':' !in name && '=' !in name
  }

  predicate ValueOk(v: string, style: Style) {
    v != "" && match style
      case Plain => ':' !in v && v[0] != '"' && v[0] != '%'
      case Quoted => '"' !in v
      case Counted => |v| < 0x8000_0000
  }

  predicate EntryOk(e: Entry) {
    NameOk(e.sub.name) && if e.sub.value.None? then e.sub.name != "" else ValueOk(e.sub.value.value, e.style)
  }

  function WriteValue(v: string, style: Style): string {
    match style
    case Plain => v
    case Quoted => "\"" + v + "\""
    case Counted => "%" + Decimal(|v|) + "%" + v
  }

  function Write(e: Entry): string {
    e.sub.name + if e.sub.value.None? then "" else "=" + WriteValue(e.sub.value.value, e.style)
  }

  function WriteAll(entries: seq<Entry>): string {
    if entries == [] then ""
    else if |entries| == 1 then Write(entries[0])
    else Write(entries[0]) + ":" + WriteAll(entries[1..])
  }

  /** What the parser makes of suboptions it has read: all of them, or the first failure. */
  function Check(entries: seq<Entry>, o: Options): Answer {
    if entries == [] then Settings([])
    else
      var failure := Checked(entries[0].sub, o);
      if failure.Some? then Failed(failure.value) else Prepend(entries[0].sub, Check(entries[1..], o))
  }

  lemma {:induction false} SpanOver(a: string, rest: string, stops: string)
    requires forall c <- a :: c !in stops
    requires rest == "" || rest[0] in stops
    ensures Span(a + rest, stops) == |a|
  {
    if a == "" {
      assert a + rest == rest;
    } else {
      assert (a + rest)[1..] == a[1..] + rest;
      SpanOver(a[1..], rest, stops);
    }
  }

  /** What follows a suboption: nothing, or a colon. */
  predicate Ends(rest: string) {
    rest == "" || rest[0] == ':'
  }

  lemma ReadsPlain(v: string, rest: string, s: string)
    requires ValueOk(v, Plain) && Ends(rest) && s == v + rest
    ensures ReadValue(s) == Piece(v, rest)
  {
    SpanOver(v, rest, ":");
    assert s[0] == v[0] && s[..|v|] == v && s[|v|..] == rest;
  }

  lemma ReadsQuoted(v: string, rest: string, s: string)
    requires ValueOk(v, Quoted) && s == "\"" + v + "\"" + rest
    ensures ReadValue(s) == Piece(v, rest)
  {
    var t := "\"" + rest;
    SpanOver(v, t, "\"");
    assert s[1..] == v + t && (v + t)[..|v|] == v && s[|v| + 2..] == rest;
  }

  lemma ReadsLength(s: string, after: string, len: nat, used: nat, t: string)
    requires s != "" && s[0] == '%' && after == s[1..] && ReadNumber(after) == (len, used) && t == s[1 + used..]
    requires t != "" && t[0] == '%' && len < |t|
    ensures ReadValue(s) == Piece(t[1..][..len], t[1 + len..])
  {
  }

  lemma Regroup(digits: string, v: string, rest: string, after: string, s: string)
    requires after == digits + ("%" + (v + rest)) && s == "%" + digits + "%" + v + rest
    ensures s == "%" + after && s[0] == '%' && s[1..] == after
  {
  }

  lemma ReadsCounted(v: string, rest: string, s: string, digits: string, len: nat)
    requires 0 < len == |v| < 0x8000_0000 && digits == Decimal(len) && s == "%" + digits + "%" + v + rest
    ensures ReadValue(s) == Piece(v, rest)
  {
    var t := "%" + (v + rest);
    var after := digits + t;
    Regroup(digits, v, rest, after, s);
    assert ReadNumber(after) == (len, |digits|) by { ReadsDecimal(len, t); }
    Counts(s, digits, t, v, rest);
    ReadsLength(s, after, len, |digits|, t);
  }

  lemma Counts(s: string, digits: string, t: string, v: string, rest: string)
    requires s != "" && s[1..] == digits + t && t == "%" + (v + rest)
    ensures s[1 + |digits|..] == t && t[1..][..|v|] == v && t[1 + |v|..] == rest
  {
    assert s[1 + |digits|..] == s[1..][|digits|..];
    assert t[1..] == v + rest && t[1 + |v|..] == t[1..][|v|..];
  }

  lemma ReadsWritten(v: string, style: Style, rest: string, s: string)
    requires ValueOk(v, style) && Ends(rest) && s == WriteValue(v, style) + rest
    ensures ReadValue(s) == Piece(v, rest)
  {
    match style
    case Plain => ReadsPlain(v, rest, s);
    case Quoted => ReadsQuoted(v, rest, s);
    case Counted => ReadsCounted(v, rest, s, Decimal(|v|), |v|);
  }

  /** A written suboption is read back, up to the colon after it. */
  lemma ReadsEntry(e: Entry, rest: string, s: string)
    requires EntryOk(e) && Ends(rest) && s == Write(e) + rest
    ensures s != "" && ReadOne(s) == One(e.sub, if rest == "" then "" else rest[1..])
  {
    var name, n := e.sub.name, |e.sub.name|;
    if e.sub.value.None? {
      assert s == name + rest;
      SpanOver(name, rest, ":=");
      assert s[..n] == name && s[n..] == rest;
    } else {
      var w := WriteValue(e.sub.value.value, e.style) + rest;
      assert s == name + ("=" + w);
      SpanOver(name, "=" + w, ":=");
      assert s[..n] == name && s[n + 1..] == w;
      ReadsWritten(e.sub.value.value, e.style, rest, w);
    }
  }

  /** Any suboptions, written in any of the three ways, are read back as the same names and values; what
      the parsers of the suboptions then say of them is the outcome. */
  lemma {:induction false} TextRoundTrip(entries: seq<Entry>, o: Options)
    requires forall e <- entries :: EntryOk(e)
    ensures Parse(WriteAll(entries), o) == Check(entries, o)
  {
    if entries != [] {
      var s, more := WriteAll(entries), WriteAll(entries[1..]);
      if |entries| == 1 {
        assert s == Write(entries[0]) + "";
        ReadsEntry(entries[0], "", s);
        assert entries[1..] == [];
      } else {
        assert s == Write(entries[0]) + (":" + more) && (":" + more)[1..] == more;
        ReadsEntry(entries[0], ":" + more, s);
        TextRoundTrip(entries[1..], o);
      }
    }
  }

  function Subs(entries: seq<Entry>): seq<Sub> {
    if entries == [] then [] else [entries[0].sub] + Subs(entries[1..])
  }

  lemma {:induction false} AllAccepted(entries: seq<Entry>, o: Options)
    requires forall e <- entries :: Checked(e.sub, o) == None
    ensures Check(entries, o) == Settings(Subs(entries))
  {
    if entries != [] { AllAccepted(entries[1..], o); }
  }

  // ---------------------------------------------------------------- and whatever is read can be written

  function CountedAll(subs: seq<Sub>): seq<Entry> {
    if subs == [] then [] else [Entry(subs[0], Counted)] + CountedAll(subs[1..])
  }

  lemma {:induction false} SpanFree(s: string, stops: string, n: nat)
    requires n <= Span(s, stops)
    ensures n <= |s| && forall c <- s[..n] :: c !in stops
  {
    if n > 0 {
      SpanFree(s[1..], stops, n - 1);
      assert s[..n] == [s[0]] + s[1..][..n - 1];
    }
  }

  lemma ReadLength(s: string)
    requires s != "" && ReadOne(s).One?
    ensures NameOk(ReadOne(s).sub.name)
    ensures var v := ReadOne(s).sub.value; v.Some? ==> 0 < |v.value| <= |s|
  {
    SpanFree(s, ":=", Span(s, ":="));
  }

  lemma {:induction false} CountedFine(s: string, o: Options)
    requires |s| < 0x8000_0000 && Parse(s, o).Settings? && !o.known("")
    ensures var subs := Parse(s, o).subs;
      Subs(CountedAll(subs)) == subs && forall e <- CountedAll(subs) :: EntryOk(e) && Checked(e.sub, o) == None
    decreases |s|
  {
    if s != "" {
      ReadLength(s);
      var rest := ReadOne(s).rest;
      assert Parse(s, o) == Prepend(ReadOne(s).sub, Parse(rest, o));
      CountedFine(rest, o);
      assert Parse(s, o).subs[1..] == Parse(rest, o).subs;
    }
  }

  /** Whatever text the parser accepts, writing what it read with counted values and reading that again
      gives the same suboptions. */
  lemma RereadCounted(s: string, o: Options)
    requires |s| < 0x8000_0000 && Parse(s, o).Settings? && !o.known("")
    ensures var subs := Parse(s, o).subs;
      && Subs(CountedAll(subs)) == subs
      && (forall e <- CountedAll(subs) :: EntryOk(e) && Checked(e.sub, o) == None)
      && Parse(WriteAll(CountedAll(subs)), o) == Settings(subs)
  {
    var subs := Parse(s, o).subs;
    CountedFine(s, o);
    TextRoundTrip(CountedAll(subs), o);
    AllAccepted(CountedAll(subs), o);
  }

  // ---------------------------------------------------------------- which are accepted

  /** A suboption that there is, and whose parser answers 0 or more. */
  ghost predicate Good(e: Entry, o: Options) {
    o.known(e.sub.name) && o.accept(e.sub.name, e.sub.value) >= 0
  }

  lemma {:induction false} CheckGood(entries: seq<Entry>, o: Options)
    requires forall e <- entries :: Good(e, o)
    ensures Check(entries, o) == Settings(Subs(entries))
  {
    if entries != [] {
      assert entries[0] in entries && forall e <- entries[1..] :: e in entries;
      CheckGood(entries[1..], o);
      assert Subs(entries) == [entries[0].sub] + Subs(entries[1..]);
    } else {
      assert Subs(entries) == [];
    }
  }

  lemma {:induction false} CheckBad(entries: seq<Entry>, o: Options, i: nat)
    requires i < |entries| && !Good(entries[i], o) && forall j | 0 <= j < i :: Good(entries[j], o)
    ensures Check(entries, o) == Failed(if !o.known(entries[i].sub.name) then Unknown(entries[i].sub.name)
                                        else Refused(o.accept(entries[i].sub.name, entries[i].sub.value)))
    decreases i
  {
    if i > 0 {
      assert Good(entries[0], o);
      forall j | 0 <= j < i - 1 ensures Good(entries[1..][j], o) { assert Good(entries[j + 1], o); }
      CheckBad(entries[1..], o, i - 1);
    }
  }

  /** A written text is accepted, all its suboptions in order, exactly when all are good; and else for the first that is
      not it is said whether it is unknown, or with which code it is refused. */
  lemma AcceptedIff(entries: seq<Entry>, o: Options)
    requires forall e <- entries :: EntryOk(e)
    ensures Parse(WriteAll(entries), o).Settings? <==> forall i | 0 <= i < |entries| :: Good(entries[i], o)
    ensures Parse(WriteAll(entries), o).Settings? ==> Parse(WriteAll(entries), o) == Settings(Subs(entries))
    ensures forall i | 0 <= i < |entries| && !Good(entries[i], o) && (forall j | 0 <= j < i :: Good(entries[j], o)) ::
      Parse(WriteAll(entries), o) == Failed(if !o.known(entries[i].sub.name) then Unknown(entries[i].sub.name)
                                            else Refused(o.accept(entries[i].sub.name, entries[i].sub.value)))
  {
    TextRoundTrip(entries, o);
    if forall i | 0 <= i < |entries| :: Good(entries[i], o) {
      CheckGood(entries, o);
    } else {
      var i := FirstBad(entries, o, 0);
      CheckBad(entries, o, i);
    }
  }

  lemma {:induction false} FirstBad(entries: seq<Entry>, o: Options, k: nat) returns (i: nat)
    requires k <= |entries| && (forall j | 0 <= j < k :: Good(entries[j], o))
    requires exists j | 0 <= j < |entries| :: !Good(entries[j], o)
    ensures i < |entries| && !Good(entries[i], o) && forall j | 0 <= j < i :: Good(entries[j], o)
    decreases |entries| - k
  {
    if !Good(entries[k], o) { i := k; } else { i := FirstBad(entries, o, k + 1); }
  }

  // ---------------------------------------------------------------- which are malformed

  /** What stands behind name= decides whether the text can be read at all. */
  lemma AfterEquals(name: string, w: string, s: string, o: Options)
    requires NameOk(name) && s == name + ("=" + w)
    ensures ReadOne(s) == Finish(name, ReadValue(w))
    ensures Finish(name, ReadValue(w)).Broken? ==> Parse(s, o) == Failed(Malformed)
  {
    SpanOver(name, "=" + w, ":=");
    assert s[..|name|] == name && s[|name| + 1..] == w;
  }

  /** A quoted value that is not closed. */
  lemma UnclosedQuote(name: string, v: string, o: Options)
    requires NameOk(name) && '"' !in v
    ensures Parse(name + ("=" + ("\"" + v)), o) == Failed(Malformed)
  {
    var w := "\"" + v;
    SpanOver(v, "", "\"");
    assert v + "" == v && w[1..] == v;
    AfterEquals(name, w, name + ("=" + w), o);
  }

  /** Something other than a colon behind the closing quote. */
  lemma BehindQuote(name: string, v: string, rest: string, o: Options)
    requires NameOk(name) && '"' !in v && rest != "" && rest[0] != ':'
    ensures Parse(name + ("=" + ("\"" + v + "\"" + rest)), o) == Failed(Malformed)
  {
    var w := "\"" + v + "\"" + rest;
    var t := "\"" + rest;
    SpanOver(v, t, "\"");
    assert w[1..] == v + t && (v + t)[..|v|] == v && w[|v| + 2..] == rest;
    AfterEquals(name, w, name + ("=" + w), o);
  }

  /** A length that is more than what is left. */
  lemma LengthTooLarge(name: string, n: nat, v: string, o: Options)
    requires NameOk(name) && |v| < n < 0x8000_0000
    ensures Parse(name + ("=" + ("%" + (Decimal(n) + ("%" + v)))), o) == Failed(Malformed)
  {
    var w := "%" + (Decimal(n) + ("%" + v));
    LengthRefused(n, Decimal(n), "%" + v, Decimal(n) + ("%" + v), w);
    AfterEquals(name, w, name + ("=" + w), o);
  }

  lemma LengthRefused(n: nat, digits: string, t: string, after: string, w: string)
    requires 0 < n < 0x8000_0000 && digits == Decimal(n) && after == digits + t && w == "%" + after
    requires t == "" || (Digit(t[0]) >= 10 && (t[0] != '%' || n > |t| - 1))
    ensures ReadValue(w) == Bad
  {
    DecimalRead(n, digits, t, after);
    PercentRest(digits, t, after, w);
    BadLength(w, after, n, |digits|, t);
  }

  lemma PercentRest(digits: string, t: string, after: string, w: string)
    requires after == digits + t && w == "%" + after
    ensures w[1..] == after && 1 + |digits| <= |w| && w[1 + |digits|..] == t
  {
  }

  lemma BadLength(w: string, after: string, len: nat, used: nat, t: string)
    requires w != "" && w[0] == '%' && w[1..] == after && ReadNumber(after) == (len, used) && w[1 + used..] == t
    requires t == "" || t[0] != '%' || len > |t| - 1
    ensures ReadValue(w) == Bad
  {
    hide ReadNumber;
  }

  /** A length that is no length: no second percent sign behind it. */
  lemma LengthNotClosed(name: string, n: nat, v: string, o: Options)
    requires NameOk(name) && 0 < n < 0x8000_0000 && (v == "" || (v[0] != '%' && Digit(v[0]) >= 10))
    ensures Parse(name + ("=" + ("%" + (Decimal(n) + v))), o) == Failed(Malformed)
  {
    var w := "%" + (Decimal(n) + v);
    LengthRefused(n, Decimal(n), v, Decimal(n) + v, w);
    AfterEquals(name, w, name + ("=" + w), o);
  }

  /** A value written as nothing, or as nothing in quotes, is no value. */
  lemma EmptyIsNone(name: string)
    requires NameOk(name)
    ensures ReadOne(name + ("=" + "")) == ReadOne(name + ("=" + "\"\"")) == One(Sub(name, None), "")
  {
    var o := Options((name: string) => true, (name: string, value: Option<string>) => 0);
    AfterEquals(name, "", name + ("=" + ""), o);
    AfterEquals(name, "\"\"", name + ("=" + "\"\""), o);
    assert "\"\""[1..] == "\"" && Span("\"", "\"") == 0 && "\"\""[2..] == "" && "\""[..0] == "";
  }
}

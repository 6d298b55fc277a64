/** Suboption texts, opt1=foo:flag:opt2=blah: parse_subconf of m_option.c. */
module Suboptions {
  import opened Util
  import opened Strtol

  datatype Sub = Sub(name: string, value: Option<string>)

  datatype Failure = MissingParam | Malformed | Unknown(name: string) | Refused(code: int)

  datatype Answer = Settings(subs: seq<Sub>) | Failed(failure: Failure)

  /** The suboptions there are, and what the parser of each says of a value; negative is an error. */
  datatype Options = Options(known: string -> bool, accept: (string, Option<string>) -> int)

  /** strcspn: how much of s comes before the first of the stops. */
  function Span(s: string, stops: string): (n: nat)
    ensures n <= |s| && (n < |s| ==> s[n] in stops)
  {
    if s == "" || s[0] in stops then 0 else 1 + Span(s[1..], stops)
  }

  // ---------------------------------------------------------------- reading one suboption

  datatype Piece = Bad | Piece(text: string, rest: string)

  /** The value after an equals sign: quoted, counted, or plain up to the next colon. */
  function ReadValue(s: string): (r: Piece)
    ensures r.Piece? ==> |r.rest| <= |s|
  {
    if s != "" && s[0] == '"' then
      var n := Span(s[1..], "\"");
      if n == |s| - 1 then Bad else Piece(s[1..][..n], s[n + 2..])
    else if s != "" && s[0] == '%' then
      var (len, used) := ReadNumber(s[1..]);
      var t := s[1 + used..];
      if t == "" || t[0] != '%' || len < 0 || len > |t| - 1 then Bad else Piece(t[1..][..len], t[1 + len..])
    else
      var n := Span(s, ":");
      Piece(s[..n], s[n..])
  }

  /** The empty value is passed on as none. */
  function ValueOf(text: string): Option<string> {
    if text == "" then None else Some(text)
  }

  datatype One = Broken | One(sub: Sub, rest: string)

  /** A suboption ends at a colon or at the end of the text. */
  function Finish(name: string, v: Piece): (r: One)
    ensures r.One? ==> v.Piece? && |r.rest| <= |v.rest| && (v.rest != "" ==> |r.rest| < |v.rest|)
  {
    if v.Bad? then Broken
    else if v.rest == "" then One(Sub(name, ValueOf(v.text)), "")
    else if v.rest[0] == ':' then One(Sub(name, ValueOf(v.text)), v.rest[1..])
    else Broken
  }

  /** What follows the first n characters, the name. */
  function AfterName(s: string, n: nat): (v: Piece)
    requires n <= |s|
    ensures v.Piece? ==> |v.rest| <= |s| - n
    ensures v.Piece? && n < |s| && s[n] == '=' ==> |v.rest| < |s| - n
  {
    if n < |s| && s[n] == '=' then ReadValue(s[n + 1..]) else Piece("", s[n..])
  }

  function ReadOne(s: string): (r: One)
    requires s != ""
    ensures r.One? ==> |r.rest| < |s|
  {
    var n := Span(s, ":=");
    Finish(s[..n], AfterName(s, n))
  }

  function Prepend(sub: Sub, a: Answer): Answer {
    if a.Settings? then Settings([sub] + a.subs) else a
  }

  function Checked(sub: Sub, o: Options): Option<Failure> {
    if !o.known(sub.name) then Some(Unknown(sub.name))
    else if o.accept(sub.name, sub.value) < 0 then Some(Refused(o.accept(sub.name, sub.value)))
    else None
  }

  function Parse(s: string, o: Options): Answer
    decreases |s|
  {
    if s == "" then Settings([])
    else
      var r := ReadOne(s);
      if r.Broken? then Failed(Malformed)
      else
        var failure := Checked(r.sub, o);
        if failure.Some? then Failed(failure.value) else Prepend(r.sub, Parse(r.rest, o))
  }

  // ---------------------------------------------------------------- the loop

  /** The value that begins at param[p], just behind an equals sign. */
  method ParseValue(param: string, p: nat, ghost s: string) returns (ok: bool, text: string, next: nat)
    requires p <= |param| && s == param[p..]
    ensures ok <==> ReadValue(s).Piece?
    ensures ok ==> p <= next <= |param| && ReadValue(s) == Piece(text, param[next..])
  {
    hide ReadNumber;
    text, next, ok := "", p, true;
    if p < |param| && param[p] == '"' {
      var n := Span(param[p + 1..], "\"");
      assert s[1..] == param[p + 1..];
      if p + 1 + n == |param| { return false, "", p; }
      text, next := param[p + 1..][..n], p + n + 2;
      assert s[n + 2..] == param[next..];
    } else if p < |param| && param[p] == '%' {
      var (len, used) := ReadNumber(param[p + 1..]);
      assert s[1..] == param[p + 1..];
      var q := p + 1 + used;
      assert s[1 + used..] == param[q..];
      if q >= |param| || param[q] != '%' || len < 0 || len > |param| - q - 1 { return false, "", p; }
      text, next := param[q + 1..][..len], q + 1 + len;
      assert param[q..][1..] == param[q + 1..] && param[q..][1 + len..] == param[next..];
    } else {
      var n := Span(param[p..], ":");
      text, next := param[p..][..n], p + n;
      assert s[n..] == param[next..];
    }
  }

  /** What follows the name that ends at param[p]. */
  method ParseAfterName(param: string, p: nat, ghost s: string, ghost n: nat)
    returns (ok: bool, text: string, next: nat)
    requires p <= |param| && n <= |s| && s[n..] == param[p..]
    ensures var v := AfterName(s, n);
      && (ok <==> v.Piece?)
      && (ok ==> p <= next <= |param| && v == Piece(text, param[next..]))
  {
    ok, text, next := true, "", p;
    assert |s| - n == |param| - p && (n < |s| ==> s[n] == s[n..][0]);
    if p < |param| && param[p] == '=' {
      assert s[n + 1..] == s[n..][1..] && param[p + 1..] == param[p..][1..];
      ok, text, next := ParseValue(param, p + 1, s[n + 1..]);
    }
  }

  /** One turn of the loop, before the name is looked up. */
  method ParseOne(param: string, p: nat, ghost s: string) returns (ok: bool, sub: Sub, next: nat)
    requires p < |param| && s == param[p..]
    ensures ok <==> ReadOne(s).One?
    ensures ok ==> p < next <= |param| && ReadOne(s) == One(sub, param[next..])
  {
    var n := Span(param[p..], ":=");
    var name, text := param[p..][..n], "";
    assert s[n..] == param[p + n..];
    ghost var v := AfterName(s, n);
    ok, text, next := ParseAfterName(param, p + n, s, n);
    sub := Sub(name, if text == "" then None else Some(text));
    if !ok { return; }
    if next < |param| && param[next] == ':' {
      assert v.rest[1..] == param[next + 1..];
      next := next + 1;
    } else if next < |param| {
      ok := false;
    } else {
      assert param[next..] == "";
    }
  }

  function PrependAll(subs: seq<Sub>, a: Answer): Answer {
    if a.Settings? then Settings(subs + a.subs) else a
  }

  /** parse_subconf */
  method ParseSubconf(param: Option<string>, o: Options) returns (r: Answer)
    ensures r == if param == None || param == Some("") then Failed(MissingParam) else Parse(param.value, o)
  {
    if param == None || |param.value| == 0 { return Failed(MissingParam); }
    var text, p, lst := param.value, 0, [];
    ghost var s := text;
    assert PrependAll([], Parse(s, o)) == Parse(s, o);
    while p < |text|
      invariant 0 <= p <= |text| && s == text[p..]
      invariant PrependAll(lst, Parse(s, o)) == Parse(text, o)
    {
      var ok, sub, next := ParseOne(text, p, s);
      if !ok { return Failed(Malformed); }
      if !o.known(sub.name) { return Failed(Unknown(sub.name)); }
      var code := o.accept(sub.name, sub.value);
      if code < 0 { return Failed(Refused(code)); }
      p := next;
      s := text[p..];
      PrependMore(lst, sub, Parse(s, o));
      lst := lst + [sub];
    }
    r := Settings(lst);
  }

  lemma PrependMore(lst: seq<Sub>, sub: Sub, a: Answer)
    ensures PrependAll(lst, Prepend(sub, a)) == PrependAll(lst + [sub], a)
  {
    if a.Settings? { assert lst + ([sub] + a.subs) == lst + [sub] + a.subs; }
  }
}

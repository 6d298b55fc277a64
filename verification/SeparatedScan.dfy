/** Both modes of get_nextsep find the separators that the meaning of a list text names. */
module SeparatedScan {
  import opened Util
  import opened SeparatedText

  // ---------------------------------------------------------------- counting: nothing is changed

  lemma {:induction false} IndexSkips(s: string, i: nat)
    requires i <= |s|
    ensures NextSep(s, i) == NextSep(s, Index(s, i))
    decreases |s| - i
  {
    if i < |s| && s[i] != SEP { IndexSkips(s, i + 1); }
  }

  function Shift(r: Option<nat>, n: nat): Option<nat> {
    if r.None? then None else Some(r.value + n)
  }

  /** The separator that ends the element begun at from. */
  function EndFrom(text: string, from: nat, i: nat): Option<nat>
    requires from <= i <= |text|
    decreases |text| - i
  {
    if i == |text| then None
    else if text[i] == SEP && !(i > from && text[i - 1] == '\\') then Some(i)
    else EndFrom(text, from, i + 1)
  }

  lemma {:induction false} EndSkips(text: string, from: nat, i: nat)
    requires from <= i <= |text|
    ensures EndFrom(text, from, i) == EndFrom(text, from, Index(text, i))
    decreases |text| - i
  {
    if i < |text| && text[i] != SEP { EndSkips(text, from, i + 1); }
  }

  lemma {:induction false} EndIs(text: string, from: nat, s: string, i: nat)
    requires from + i <= |text| && s == text[from..]
    ensures EndFrom(text, from, from + i) == Shift(NextSep(s, i), from)
    decreases |s| - i
  {
    if i < |s| {
      assert text[from + i] == s[i] && (i > 0 ==> text[from + i - 1] == s[i - 1]);
      EndIs(text, from, s, i + 1);
    }
  }

  /** Without squeezing, the scan stops where the meaning says the element ends. */
  lemma {:induction false} CountingSeeks(text: string, from: nat, ptr: nat)
    requires from <= ptr <= |text|
    ensures SeekAt(text, from, ptr, false) == (text, EndFrom(text, from, ptr))
    decreases |text| - ptr
  {
    var at := Index(text, ptr);
    EndSkips(text, from, ptr);
    if from < at < |text| && text[at - 1] == '\\' { CountingSeeks(text, from, at + 1); }
  }

  lemma CountingFinds(text: string, from: nat, s: string)
    requires from <= |text| && s == text[from..]
    ensures SeekAt(text, from, from, false) == (text, Shift(NextSep(s, 0), from))
  {
    CountingSeeks(text, from, from);
    EndIs(text, from, s, 0);
  }

  // ---------------------------------------------------------------- splitting: escapes are squeezed out

  datatype Found = Found(element: string, rest: string)

  /** An element squeezed, and what follows it, from its separator on. */
  function Squeeze(s: string): (r: Found)
    ensures r.rest == "" || r.rest[0] == SEP
    decreases |s|
  {
    var d := Index(s, 0);
    if 0 < d < |s| && s[d - 1] == '\\' then
      var f := Squeeze(s[d + 1..]);
      Found(s[..d - 1] + [SEP] + f.element, f.rest)
    else Found(s[..d], s[d..])
  }

  /** What the scan leaves of a text, the part before `ahead` having been passed over. */
  function Left(behind: string, from: nat, f: Found): (string, Option<nat>) {
    (behind + f.element + f.rest, if f.rest == "" then None else Some(|behind| + |f.element|))
  }

  lemma DropEscape(behind: string, ahead: string, d: nat)
    requires 0 < d < |ahead| && ahead[d] == SEP
    ensures Drop(behind + ahead, |behind| + d - 1) == behind + (ahead[..d - 1] + [SEP]) + ahead[d + 1..]
  {
  }

  lemma TwoParts(behind: string, ahead: string, text: string, d: nat)
    requires d <= |ahead| && text == behind + ahead
    ensures 0 < d ==> text[|behind| + d - 1] == ahead[d - 1]
    ensures behind != "" ==> text[|behind| - 1] == behind[|behind| - 1]
  {
  }

  lemma {:induction false} IndexBehind(behind: string, ahead: string, text: string, i: nat, k: nat, at: nat)
    requires i <= |ahead| && text == behind + ahead && k == |behind| + i && at == |behind| + Index(ahead, i)
    ensures Index(text, k) == at
    decreases |ahead| - i
  {
    if i < |ahead| {
      assert text[k] == ahead[i];
      if ahead[i] != SEP { IndexBehind(behind, ahead, text, i + 1, k + 1, at); }
    }
  }

  /** One step of the scan, with the text in two parts. */
  lemma StepBehind(behind: string, ahead: string, text: string, from: nat, ptr: nat, d: nat, at: nat)
    requires text == behind + ahead && from <= ptr == |behind| && (from == ptr || behind[ptr - 1] != '\\')
    requires d == Index(ahead, 0) && at == ptr + d
    ensures Index(text, ptr) == at
    ensures from < at < |text| && text[at - 1] == '\\' <==> 0 < d < |ahead| && ahead[d - 1] == '\\'
  {
    TwoParts(behind, ahead, text, d);
    IndexBehind(behind, ahead, text, 0, ptr, at);
  }

  lemma Stops(behind: string, ahead: string, text: string, from: nat, ptr: nat, d: nat, at: nat)
    requires text == behind + ahead && from <= ptr == |behind| && (from == ptr || behind[ptr - 1] != '\\')
    requires d == Index(ahead, 0) && at == ptr + d && !(0 < d < |ahead| && ahead[d - 1] == '\\')
    ensures SeekAt(text, from, ptr, true) == (text, if at < |text| then Some(at) else None)
  {
    StepBehind(behind, ahead, text, from, ptr, d, at);
    SeekStep(text, from, ptr, true, at);
  }

  lemma GoesOn(behind: string, ahead: string, text: string, from: nat, ptr: nat, d: nat, at: nat, next: string)
    requires text == behind + ahead && from <= ptr == |behind| && (from == ptr || behind[ptr - 1] != '\\')
    requires d == Index(ahead, 0) && at == ptr + d && 0 < d < |ahead| && ahead[d - 1] == '\\'
        && next == Drop(text, at - 1)
    ensures SeekAt(text, from, ptr, true) == SeekAt(next, from, at, true)
  {
    StepBehind(behind, ahead, text, from, ptr, d, at);
    SeekStep(text, from, ptr, true, at);
  }

  lemma SqueezeGoesOn(s: string, d: nat, f: Found)
    requires d == Index(s, 0) && 0 < d < |s| && s[d - 1] == '\\' && f == Squeeze(s[d + 1..])
    ensures Squeeze(s) == Found(s[..d - 1] + [SEP] + f.element, f.rest)
  {
  }

  lemma SqueezeStops(s: string, d: nat)
    requires d == Index(s, 0) && !(0 < d < |s| && s[d - 1] == '\\')
    ensures Squeeze(s) == Found(s[..d], s[d..])
  {
  }

  lemma LeftIs(behind: string, ahead: string, from: nat, d: nat)
    requires d <= |ahead|
    ensures Left(behind, from, Found(ahead[..d], ahead[d..]))
        == (behind + ahead, if d < |ahead| then Some(|behind| + d) else None)
  {
    assert behind + ahead == behind + ahead[..d] + ahead[d..];
  }

  lemma LeftPast(behind: string, a: string, f: Found, from: nat)
    ensures Left(behind + a, from, f) == Left(behind, from, Found(a + f.element, f.rest))
  {
    assert behind + a + f.element == behind + (a + f.element);
  }

  lemma {:induction false} SqueezingFinds(text: string, behind: string, ahead: string, from: nat, ptr: nat, f: Found)
    requires text == behind + ahead && f == Squeeze(ahead) && ptr == |behind|
    requires from <= ptr && (from == ptr || behind[ptr - 1] != '\\')
    ensures SeekAt(text, from, ptr, true) == Left(behind, from, f)
    decreases |ahead|
  {
    var d := Index(ahead, 0);
    var at := ptr + d;
    if 0 < d < |ahead| && ahead[d - 1] == '\\' {
      var a, more := ahead[..d - 1] + [SEP], ahead[d + 1..];
      var passed, g := behind + a, Squeeze(more);
      var next := passed + more;
      DropEscape(behind, ahead, d);
      GoesOn(behind, ahead, text, from, ptr, d, at, next);
      SqueezingFinds(next, passed, more, from, at, g);
      LeftPast(behind, a, g, from);
      SqueezeGoesOn(ahead, d, g);
    } else {
      Stops(behind, ahead, text, from, ptr, d, at);
      SqueezeStops(ahead, d);
      LeftIs(behind, ahead, from, d);
    }
  }

  lemma {:induction false} NextSepShift(s: string, j: nat, i: nat)
    requires j <= |s| && i <= |s| - j && (j > 0 ==> s[j - 1] != '\\')
    ensures NextSep(s, j + i) == Shift(NextSep(s[j..], i), j)
    decreases |s| - j - i
  {
    if j + i < |s| { NextSepShift(s, j, i + 1); }
  }

  /** An element whose separator at s[d] is escaped: the rest of it is the element that follows. */
  lemma EscapedGoesOn(s: string, d: nat)
    requires 0 < d < |s| && d == Index(s, 0) && s[d - 1] == '\\'
    ensures NextSep(s, 0) == Shift(NextSep(s[d + 1..], 0), d + 1)
  {
    assert s[0..] == s;
    IndexSkips(s, 0);
    assert NextSep(s, d) == NextSep(s, d + 1);
    NextSepShift(s, d + 1, 0);
  }

  lemma {:induction false} UnescapeFree(e: string)
    requires forall i | 0 <= i < |e| :: e[i] != SEP
    ensures Unescape(e) == e
  {
    if e != "" { UnescapeFree(e[1..]); }
  }

  lemma {:induction false} UnescapePast(s: string, d: nat, n: nat)
    requires 0 < d < n <= |s| && s[d] == SEP && s[d - 1] == '\\' && forall i | 0 <= i < d :: s[i] != SEP
    ensures Unescape(s[..n]) == s[..d - 1] + [SEP] + Unescape(s[d + 1..n])
    decreases d
  {
    var e := s[..n];
    if d == 1 {
      assert e[2..] == s[2..n];
    } else {
      assert e[1..] == s[1..][..n - 1] && s[1..][d..n - 1] == s[d + 1..n];
      assert s[1..][..d - 2] == s[1..d - 1];
      UnescapePast(s[1..], d - 1, n - 1);
      assert s[..d - 1] == [s[0]] + s[1..d - 1];
    }
  }

  function End(s: string): (n: nat)
    ensures n <= |s|
  {
    if NextSep(s, 0).Some? then NextSep(s, 0).value else |s|
  }

  /** What squeezing a text is to give: the element as it is meant, up to the same separator. */
  function Meant(s: string): Found {
    Found(Unescape(s[..End(s)]), s[End(s)..])
  }

  lemma EndThere(s: string, d: nat)
    requires d == Index(s, 0) && !(0 < d < |s| && s[d - 1] == '\\')
    ensures End(s) == d
  {
    assert s[0..] == s;
    IndexSkips(s, 0);
  }

  lemma EndPast(s: string, d: nat)
    requires d == Index(s, 0) && 0 < d < |s| && s[d - 1] == '\\'
    ensures End(s) == d + 1 + End(s[d + 1..])
  {
    EscapedGoesOn(s, d);
  }

  lemma MeantIs(s: string, n: nat, e: string)
    requires n == End(s) && e == Unescape(s[..n])
    ensures Meant(s) == Found(e, s[n..])
  {
    hide NextSep, Unescape, Index, End;
  }

  lemma Cut(s: string, from: nat, to: nat)
    requires from <= to <= |s|
    ensures s[from..][..to - from] == s[from..to] && s[from..][to - from..] == s[to..]
  {
  }

  lemma MeantPast(s: string, d: nat, g: Found)
    requires d == Index(s, 0) && 0 < d < |s| && s[d - 1] == '\\' && g == Meant(s[d + 1..])
    ensures Meant(s) == Found(s[..d - 1] + [SEP] + g.element, g.rest)
  {
    EndPast(s, d);
    var m := End(s);
    UnescapePast(s, d, m);
    Cut(s, d + 1, m);
    MeantIs(s, m, s[..d - 1] + [SEP] + Unescape(s[d + 1..m]));
    MeantIs(s[d + 1..], m - d - 1, Unescape(s[d + 1..m]));
  }

  lemma {:induction false} SqueezeMeans(s: string)
    ensures Squeeze(s) == Meant(s)
    decreases |s|
  {
    var d := Index(s, 0);
    if 0 < d < |s| && s[d - 1] == '\\' {
      SqueezeMeans(s[d + 1..]);
      SqueezeGoesOn(s, d, Meant(s[d + 1..]));
      MeantPast(s, d, Meant(s[d + 1..]));
    } else {
      SqueezeStops(s, d);
      EndThere(s, d);
      UnescapeFree(s[..d]);
      MeantIs(s, d, s[..d]);
    }
  }

  /** The two modes agree on where the element ends; the second has taken the escapes out of it. */
  lemma ModesAgree(text: string, from: nat, s: string, n: nat)
    requires from <= |text| && s == text[from..] && n == End(s)
    ensures n <= |s| && SeekAt(text, from, from, false) == (text, Shift(NextSep(s, 0), from))
    ensures SeekAt(text, from, from, true) == Left(text[..from], from, Found(Unescape(s[..n]), s[n..]))
  {
    var done, f := text[..from], Squeeze(s);
    CountingFinds(text, from, s);
    assert text == done + s;
    SqueezingFinds(text, done, s, from, from, f);
    SqueezeMeans(s);
  }
}

/** Comma-separated lists with escaped separators: get_nextsep and parse_str_list of m_option.c. */
module SeparatedText {
  import opened Util

  const SEP: char := ','

  // ---------------------------------------------------------------- what a list text means

  /** The separator at s[i] stands for itself when a backslash precedes it. */
  predicate Escaped(s: string, i: nat)
    requires i < |s|
  {
    i > 0 && s[i - 1] == '\\'
  }

  /** The first separator from s[i] on that ends an element; s begins with the element. */
  function NextSep(s: string, i: nat): (r: Option<nat>)
    requires i <= |s|
    ensures r.Some? ==> i <= r.value < |s| && s[r.value] == SEP && !Escaped(s, r.value)
    decreases |s| - i
  {
    if i == |s| then None
    else if s[i] == SEP && !Escaped(s, i) then Some(i)
    else NextSep(s, i + 1)
  }

  /** An element with every escaped separator made plain. */
  function Unescape(e: string): (r: string)
    ensures |r| <= |e|
  {
    if e == "" then ""
    else if |e| > 1 && e[0] == '\\' && e[1] == SEP then [SEP] + Unescape(e[2..])
    else [e[0]] + Unescape(e[1..])
  }

  function Split(s: string): (r: seq<string>)
    ensures r != []
  {
    match NextSep(s, 0)
    case None => [Unescape(s)]
    case Some(i) => [Unescape(s[..i])] + Split(s[i + 1..])
  }

  /** How many elements the first pass counts: an empty one at the very end is not seen. */
  function Count(s: string): nat {
    if s == "" then 0
    else match NextSep(s, 0)
      case None => 1
      case Some(i) => 1 + Count(s[i + 1..])
  }

  lemma {:induction false} CountsAllButLast(s: string)
    ensures |Split(s)| - 1 <= Count(s) <= |Split(s)|
  {
    if s != "" {
      match NextSep(s, 0)
      case None =>
      case Some(i) => CountsAllButLast(s[i + 1..]);
    }
  }

  // ---------------------------------------------------------------- get_nextsep, in both modes

  /** strchr: the first separator from s[i] on, or the end. */
  function Index(s: string, i: nat): (r: nat)
    requires i <= |s|
    ensures i <= r <= |s| && (r < |s| ==> s[r] == SEP) && forall j | i <= j < r :: s[j] != SEP
    decreases |s| - i
  {
    if i == |s| || s[i] == SEP then i else Index(s, i + 1)
  }

  /** The text without its i-th character. */
  function Drop(s: string, i: nat): string
    requires i < |s|
  {
    s[..i] + s[i + 1..]
  }

  /** The scan as it goes over the text that fills the buffer: the text it leaves, and where it stops. */
  function SeekAt(text: string, from: nat, ptr: nat, squeeze: bool): (r: (string, Option<nat>))
    requires from <= ptr <= |text|
    decreases |text| - ptr
  {
    var at := Index(text, ptr);
    if from < at < |text| && text[at - 1] == '\\' then
      if squeeze then SeekAt(Drop(text, at - 1), from, at, squeeze) else SeekAt(text, from, at + 1, squeeze)
    else (text, if at < |text| then Some(at) else None)
  }

  /** strchr from ptr on, in the text that fills buf up to len */
  method FindSep(buf: array<char>, len: nat, ptr: nat, ghost text: string) returns (r: Option<nat>)
    requires ptr <= len <= buf.Length && text == buf[..len]
    ensures r == if Index(text, ptr) < len then Some(Index(text, ptr)) else None
  {
    var i := ptr;
    while i < len
      invariant ptr <= i <= len && Index(text, ptr) == Index(text, i)
    {
      assert text[i] == buf[i];
      if buf[i] == SEP { return Some(i); }
      i := i + 1;
    }
    r := None;
  }

  /** memmove of the text's end one place down, over buf[at - 1] */
  method MoveDown(buf: array<char>, len: nat, at: nat)
    requires 0 < at <= len <= buf.Length
    modifies buf
    ensures buf[..len - 1] == old(Drop(buf[..len], at - 1))
  {
    forall i | at <= i < len { buf[i - 1] := buf[i]; }
  }

  /** One step of the scan. */
  lemma SeekStep(text: string, from: nat, ptr: nat, squeeze: bool, at: nat)
    requires from <= ptr <= |text| && at == Index(text, ptr)
    ensures SeekAt(text, from, ptr, squeeze) ==
      if from < at < |text| && text[at - 1] == '\\' then
        if squeeze then SeekAt(Drop(text, at - 1), from, at, squeeze) else SeekAt(text, from, at + 1, squeeze)
      else (text, if at < |text| then Some(at) else None)
  {
  }

  /** get_nextsep: the next separator that ends an element begun at from.  When squeezing, the backslashes
      of the escaped ones before it are taken out in place; otherwise nothing is changed. */
  method GetNextSep(buf: array<char>, len: nat, from: nat, squeeze: bool) returns (r: Option<nat>, now: nat)
    requires from <= len <= buf.Length
    modifies buf
    ensures now <= len && (buf[..now], r) == SeekAt(old(buf[..len]), from, from, squeeze)
  {
    ghost var text := buf[..len];
    ghost var found := SeekAt(text, from, from, squeeze);
    var ptr := from;
    now := len;
    while true
      invariant from <= ptr <= now <= len && text == buf[..now] && SeekAt(text, from, ptr, squeeze) == found
      decreases now - ptr
    {
      r := FindSep(buf, now, ptr, text);
      SeekStep(text, from, ptr, squeeze, Index(text, ptr));
      if r.Some? && r.value > from && buf[r.value - 1] == '\\' {
        if squeeze {
          MoveDown(buf, now, r.value);
          text := Drop(text, r.value - 1);
          ptr, now := r.value, now - 1;
        } else {
          ptr := r.value + 1;
        }
      } else {
        break;
      }
    }
  }
}

/** String-list options of m_option.c: parse_str_list and the list operations behind -add, -pre and -del. */
module StringLists {
  import opened Util
  import opened SeparatedText
  import opened SeparatedScan

  datatype Answer = Done | Missing | OutOfRange | Unknown

  datatype Limits = Limits(min: Option<int>, max: Option<int>)

  predicate Within(l: Limits, n: int) {
    (l.min.Some? ==> l.min.value <= n) && (l.max.Some? ==> n <= l.max.value)
  }

  /** The cells up to n hold the elements, and a null pointer follows them. */
  ghost predicate Holds(cells: array<Option<string>>, elements: seq<string>)
    reads cells
  {
    && |elements| < cells.Length && cells[|elements|] == None
    && forall i | 0 <= i < |elements| :: cells[i] == Some(elements[i])
  }

  lemma CountStep(text: string, ptr: nat, s: string, r: Option<nat>)
    requires ptr < |text| && s == text[ptr..] && r == Shift(NextSep(s, 0), ptr)
    ensures r.None? ==> Count(s) == 1
    ensures r.Some? ==> ptr <= r.value < |text| && Count(s) == 1 + Count(text[r.value + 1..])
  {
    if r.Some? { assert text[ptr..][r.value + 1 - ptr..] == text[r.value + 1..]; }
  }

  /** The first pass of parse_str_list: how many elements there are. */
  method CountElements(buf: array<char>, len: nat) returns (n: nat)
    requires len <= buf.Length
    modifies buf
    ensures n == Count(old(buf[..len])) && buf[..len] == old(buf[..len])
  {
    ghost var text := buf[..len];
    var ptr := 0;
    n := 0;
    assert text[0..] == text;
    while ptr < len
      invariant 0 <= ptr <= len && buf[..len] == text
      invariant n + Count(text[ptr..]) == Count(text)
    {
      var r, now := GetNextSep(buf, len, ptr, false);
      CountingFinds(text, ptr, text[ptr..]);
      CountStep(text, ptr, text[ptr..], r);
      if r.None? { return n + 1; }
      ptr := r.value + 1;
      n := n + 1;
    }
  }

  lemma SplitAt(s: string, n: nat, e: string)
    requires n == End(s) && e == Unescape(s[..n])
    ensures n <= |s|
    ensures NextSep(s, 0).None? ==> Split(s) == [e] && n == |s|
    ensures NextSep(s, 0).Some? ==> n < |s| && Split(s) == [e] + Split(s[n + 1..])
  {
    if NextSep(s, 0).None? { assert s[..n] == s; }
  }

  /** The pieces of a text left by a scan. */
  lemma Pieces(done: string, e: string, rest: string, now: string, last: nat, stop: nat)
    requires now == done + e + rest && last == |done| && stop == last + |e|
    ensures last <= stop <= |now| && now[last..stop] == e
    ensures rest == "" ==> stop == |now| && now[last..] == e
    ensures rest != "" ==> stop < |now| && now[stop + 1..] == rest[1..]
  {
  }

  /** What one squeezing scan yields: the next element, and where the rest of the list begins. */
  lemma ElementFound(text: string, last: nat, s: string, now: string, r: Option<nat>) returns (e: string, tail: string)
    requires last <= |text| && s == text[last..] && (now, r) == SeekAt(text, last, last, true)
    ensures last <= |now| && (r.Some? ==> last <= r.value < |now|)
    ensures r.None? ==> e == now[last..] && Split(s) == [e]
    ensures r.Some? ==> e == now[last..r.value] && tail == now[r.value + 1..] && Split(s) == [e] + Split(tail)
  {
    hide NextSep, Unescape, End, Split;
    var n, done := End(s), text[..last];
    ModesAgree(text, last, s, n);
    e := Unescape(s[..n]);
    var rest := s[n..];
    SplitAt(s, n, e);
    Pieces(done, e, rest, now, last, last + |e|);
    tail := if rest == "" then "" else s[n + 1..];
    assert rest != "" ==> rest[1..] == tail;
  }

  /** Copies out the element that begins at last. */
  method NextElement(buf: array<char>, len: nat, last: nat, ghost s: string)
    returns (e: string, r: Option<nat>, now: nat, ghost tail: string)
    requires last <= len <= buf.Length && s == buf[..len][last..]
    modifies buf
    ensures now <= len && (r.Some? ==> r.value < now && tail == buf[..now][r.value + 1..])
    ensures Split(s) == if r.None? then [e] else [e] + Split(tail)
  {
    ghost var text := buf[..len];
    r, now := GetNextSep(buf, len, last, true);
    ghost var left, elem := buf[..now], "";
    elem, tail := ElementFound(text, last, s, left, r);
    var end := if r.None? then now else r.value;
    e := buf[last..end];
    assert left[last..end] == e;
  }

  lemma TakeOne(elements: seq<string>, k: nat, e: string, more: seq<string>)
    requires k <= |elements| && elements[k..] == [e] + more
    ensures k < |elements| && elements[k] == e && elements[k + 1..] == more
    ensures more == [] <==> k + 1 == |elements|
  {
  }

  /** The second pass of parse_str_list: the elements, in cells that the first pass made room for. */
  method SplitElements(buf: array<char>, len: nat, n: nat)
    returns (cells: array<Option<string>>, ghost elements: seq<string>)
    requires len <= buf.Length && n == Count(buf[..len])
    modifies buf
    ensures fresh(cells) && cells.Length == n + 2
    ensures elements == Split(old(buf[..len])) && Holds(cells, elements)
  {
    ghost var tail := buf[..len];
    elements := Split(tail);
    CountsAllButLast(tail);
    assert elements == Split(old(buf[..len])) && |elements| <= n + 1 && tail == tail[0..] && elements[0..] == elements;
    cells := new Option<string>[n + 2](_ => None);
    var ptr, now, k := 0, len, 0;
    while true
      invariant 0 <= ptr <= now <= len && 0 <= k < |elements| <= n + 1 && fresh(cells)
      invariant tail == buf[..now][ptr..] && Split(tail) == elements[k..]
      invariant forall i | 0 <= i < k :: cells[i] == Some(elements[i])
      decreases |elements| - k
    {
      var r, e;
      e, r, now, tail := NextElement(buf, now, ptr, tail);
      TakeOne(elements, k, e, if r.None? then [] else Split(tail));
      cells[k] := Some(e);
      k := k + 1;
      if r.None? { break; }
      ptr := r.value + 1;
    }
    cells[k] := None;
  }

  /** parse_str_list without a suffix: the elements, unless the text is empty or has too few or too many
      of them.  An empty last element is not counted against the limits.  Nothing is split when the list is not
      wanted. */
  method ParseStrList(param: Option<string>, limits: Limits, wanted: bool)
    returns (a: Answer, cells: array?<Option<string>>)
    ensures a == if param == None || param == Some("") then Missing
        else if !Within(limits, Count(param.value)) then OutOfRange else Done
    ensures wanted && a == Done <==> cells != null
    ensures cells != null ==> fresh(cells) && Holds(cells, Split(param.value))
  {
    cells := null;
    if param == None || |param.value| == 0 { return Missing, null; }
    var len := |param.value|;
    var buf := new char[len + 1](i => if 0 <= i < len then param.value[i] else 0 as char);
    assert buf[..len] == param.value;
    var n := CountElements(buf, len);
    if !Within(limits, n) { return OutOfRange, null; }
    if !wanted { return Done, null; }
    var list, elements := SplitElements(buf, len, n);
    return Done, list;
  }

  // ---------------------------------------------------------------- the suffixes

  /** The length of a list, which may be a null pointer. */
  method Length(cells: array?<Option<string>>, ghost list: seq<string>) returns (n: nat)
    requires if cells == null then list == [] else Holds(cells, list)
    ensures n == |list|
  {
    n := 0;
    if cells == null { return; }
    while cells[n] != None
      invariant n <= |list|
      decreases |list| - n
    {
      n := n + 1;
    }
  }

  /** memcpy of a list's elements, without its end */
  method CopyInto(src: array<Option<string>>, n: nat, dst: array<Option<string>>, at: nat, ghost list: seq<string>)
    requires Holds(src, list) && n == |list| && at + n <= dst.Length && src != dst
    modifies dst
    ensures forall i | 0 <= i < n :: dst[at + i] == Some(list[i])
    ensures forall i | 0 <= i < dst.Length && !(at <= i < at + n) :: dst[i] == old(dst[i])
  {
    forall i | 0 <= i < n { dst[at + i] := src[i]; }
  }

  /** str_list_add: the n new elements after the old ones, or before them. */
  method ListAdd(add: array<Option<string>>, n: nat, dst: array?<Option<string>>, pre: bool, ghost added: seq<string>,
      ghost was: seq<string>)
    returns (r: array<Option<string>>)
    requires Holds(add, added) && n == |added|
    requires if dst == null then was == [] else Holds(dst, was)
    ensures fresh(r) && Holds(r, if pre then added + was else was + added)
  {
    var ln := Length(dst, was);
    r := new Option<string>[n + ln + 1](_ => None);
    if pre {
      if dst != null { CopyInto(dst, ln, r, n, was); }
      CopyInto(add, n, r, 0, added);
      assert forall i | n <= i < n + ln :: r[i] == Some((added + was)[i]);
    } else {
      if dst != null { CopyInto(dst, ln, r, 0, was); }
      CopyInto(add, n, r, ln, added);
      assert forall i | ln <= i < ln + n :: r[i] == Some((was + added)[i]);
    }
  }

  // ---------------------------------------------------------------- deleting by index

  /** The elements whose index, counted from `at`, is not named. */
  function Unnamed(list: seq<string>, named: set<int>, at: nat): seq<string> {
    if list == [] then []
    else (if at in named then [] else [list[0]]) + Unnamed(list[1..], named, at + 1)
  }

  /** The elements that still stand in some cells. */
  function Standing(cells: seq<Option<string>>): seq<string> {
    if cells == [] then []
    else (if cells[0].Some? then [cells[0].value] else []) + Standing(cells[1..])
  }

  lemma {:induction false} StandingAll(cells: seq<Option<string>>, list: seq<string>)
    requires |cells| == |list| && forall i | 0 <= i < |list| :: cells[i] == Some(list[i])
    ensures Standing(cells) == list
  {
    if list != [] { StandingAll(cells[1..], list[1..]); }
  }

  lemma {:induction false} Struck(cells: seq<Option<string>>, i: nat)
    requires i < |cells| && cells[i].Some?
    ensures |Standing(cells[i := None])| == |Standing(cells)| - 1
  {
    if i > 0 {
      assert cells[i := None][1..] == cells[1..][i - 1 := None];
      Struck(cells[1..], i - 1);
    }
  }

  /** The cells of a list, with the named ones struck out. */
  ghost predicate Strikes(cells: seq<Option<string>>, list: seq<string>, named: set<int>, at: nat) {
    |cells| == |list| &&
    forall i | 0 <= i < |list| :: cells[i] == if at + i in named then None else Some(list[i])
  }

  lemma {:induction false} StandingIsUnnamed(cells: seq<Option<string>>, list: seq<string>, named: set<int>, at: nat)
    requires Strikes(cells, list, named, at)
    ensures Standing(cells) == Unnamed(list, named, at)
    decreases list
  {
    if list != [] {
      assert Strikes(cells[1..], list[1..], named, at + 1) by {
        forall i | 0 <= i < |list| - 1 ensures cells[1..][i] == if at + 1 + i in named then None
            else Some(list[1..][i]) {
          assert cells[1..][i] == cells[i + 1];
        }
      }
      StandingIsUnnamed(cells[1..], list[1..], named, at + 1);
    }
  }

  /** The indices that a list of texts names; strtol gives none for a text that is not a number. */
  function Named(texts: seq<string>, number: string -> Option<int>): set<int> {
    set t | t in texts && number(t).Some? :: number(t).value
  }

  /** Strikes out the element with the index that the text names, if there is one. */
  method Strike(lst: array<Option<string>>, ln: nat, text: string, number: string -> Option<int>, s: nat,
      ghost list: seq<string>, ghost named: set<int>)
    returns (left: nat)
    requires ln == |list| < lst.Length && Strikes(lst[..ln], list, named, 0) && s == |Standing(lst[..ln])|
    modifies lst
    ensures Strikes(lst[..ln], list, named + Named([text], number), 0) && left == |Standing(lst[..ln])|
  {
    left := s;
    var idx := number(text);
    ghost var before := lst[..ln];
    if idx == None { return; }
    if idx.value < 0 || idx.value >= ln { return; }
    if lst[idx.value] == None { return; }
    Struck(before, idx.value);
    lst[idx.value] := None;
    left := left - 1;
    assert lst[..ln] == before[idx.value := None];
  }

  /** str_list_del: what is left are the elements that are not named, in their order. */
  method ListDel(del: array<Option<string>>, dst: array?<Option<string>>, number: string -> Option<int>,
      ghost texts: seq<string>, ghost was: seq<string>)
    returns (r: array?<Option<string>>)
    requires Holds(del, texts) && dst != del
    requires if dst == null then was == [] else Holds(dst, was)
    modifies if dst == null then {} else {dst}
    ensures var left := Unnamed(was, Named(texts, number), 0);
      if r == null then left == [] else fresh(r) && r.Length == |left| + 1 && Holds(r, left)
  {
    var ln := Length(dst, was);
    if dst == null { return null; }
    var s, i := ln, 0;
    ghost var named := {};
    StandingAll(dst[..ln], was);
    while del[i] != None
      invariant 0 <= i <= |texts| && Holds(del, texts)
      invariant named == Named(texts[..i], number)
      invariant Strikes(dst[..ln], was, named, 0) && s == |Standing(dst[..ln])|
      decreases |texts| - i
    {
      s := Strike(dst, ln, del[i].value, number, s, was, named);
      named := named + Named([texts[i]], number);
      i := i + 1;
    }
    assert texts[..i] == texts;
    StandingIsUnnamed(dst[..ln], was, named, 0);
    if s == 0 { return null; }
    r := Compact(dst, ln, s);
  }

  /** Copies what still stands into a list of its own. */
  method Compact(lst: array<Option<string>>, ln: nat, s: nat) returns (d: array<Option<string>>)
    requires ln <= lst.Length && s == |Standing(lst[..ln])|
    ensures fresh(d) && d.Length == s + 1 && Holds(d, Standing(lst[..ln]))
  {
    ghost var cells := lst[..ln];
    ghost var all, tail := Standing(cells), cells;
    d := new Option<string>[s + 1](_ => None);
    var i, n := 0, 0;
    while i < ln
      invariant 0 <= i <= ln && 0 <= n <= s && tail == cells[i..] && all[n..] == Standing(tail)
      invariant forall j | 0 <= j < n :: d[j] == Some(all[j])
    {
      assert tail[0] == lst[i];
      if lst[i] != None {
        assert all[n..][0] == lst[i].value && all[n..][1..] == all[n + 1..];
        d[n] := lst[i];
        n := n + 1;
      }
      tail := tail[1..];
      i := i + 1;
    }
    d[s] := None;
  }

  // ---------------------------------------------------------------- the whole option

  /** What an option does to its list: the suffix of its name says it, for options that allow one. */
  datatype Op = Set | Add | Pre | Del | Clear | NoSuch

  function OpOf(option: string, name: string): Op
    requires option != ""
  {
    var n := |option| - 1;
    if option[n] != '*' || |name| <= n then Set
    else
      var suffix := Lower(name[n..]);
      if suffix == "-add" then Add
      else if suffix == "-pre" then Pre
      else if suffix == "-del" then Del
      else if suffix == "-clr" then Clear
      else NoSuch
  }

  /** The list that an option leaves, given the one before. */
  function Left(op: Op, was: seq<string>, texts: seq<string>, number: string -> Option<int>): seq<string> {
    match op
    case Set => texts
    case Add => was + texts
    case Pre => texts + was
    case Del => Unnamed(was, Named(texts, number), 0)
    case _ => []
  }

  /** A list variable holds the list. */
  ghost predicate Stored(cells: array?<Option<string>>, list: seq<string>)
    reads if cells == null then {} else {cells}
  {
    if cells == null then list == [] else Holds(cells, list)
  }

  /** What parse_str_list answers, whether it stores or only checks. */
  function AnswerTo(op: Op, param: Option<string>, limits: Limits): Answer {
    if op == NoSuch then Unknown
    else if op == Clear then Done
    else if param == None || param == Some("") then Missing
    else if Within(limits, Count(param.value)) then Done
    else OutOfRange
  }

  /** parse_str_list: the answer, and what becomes of the list variable dst.  An error leaves it alone; without a
      destination the text is only checked. */
  method StoreStrList(option: string, name: string, param: Option<string>, limits: Limits,
      dst: Option<array?<Option<string>>>, number: string -> Option<int>, ghost was: seq<string>)
    returns (a: Answer, r: Option<array?<Option<string>>>)
    requires option != "" && (dst.Some? ==> Stored(dst.value, was))
    modifies if dst == None || dst.value == null then {} else {dst.value}
    ensures a == AnswerTo(OpOf(option, name), param, limits) && r.Some? == dst.Some?
    ensures a != Done ==> r == dst
    ensures dst.Some? ==>
      var texts := if param == None then [] else Split(param.value);
      Stored(r.value, if a == Done then Left(OpOf(option, name), was, texts, number) else was)
  {
    var op := OpOf(option, name);
    if op == NoSuch { return Unknown, dst; }
    if op == Clear { return Done, if dst == None then None else Some(null); }
    var cells;
    a, cells := ParseStrList(param, limits, dst != None);
    if a != Done || dst == None { return a, dst; }
    var list := StoreElements(op, cells, dst.value, number, Split(param.value), was);
    r := Some(list);
  }

  /** Its last switch: the new elements replace the list, join it, or say what goes from it. */
  method StoreElements(op: Op, cells: array<Option<string>>, dst: array?<Option<string>>, number: string -> Option<int>,
                       ghost texts: seq<string>, ghost was: seq<string>) returns (r: array?<Option<string>>)
    requires op.Set? || op.Add? || op.Pre? || op.Del?
    requires Holds(cells, texts) && Stored(dst, was) && cells != dst
    modifies if dst == null then {} else {dst}
    ensures Stored(r, Left(op, was, texts, number))
  {
    if op == Set { return cells; }
    if op == Del {
      r := ListDel(cells, dst, number, texts, was);
    } else {
      var n := Length(cells, texts);
      r := ListAdd(cells, n, dst, op == Pre, texts, was);
    }
  }
}

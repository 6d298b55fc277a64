/** Writing lists out again: which of them parse_str_list reads back as they were. */
module SeparatedJoin {
  import opened Util
  import opened SeparatedText
  import opened SeparatedScan

  /** An element with its separators escaped. */
  function Escape(e: string): string {
    if e == "" then "" else (if e[0] == SEP then "\\" + [SEP] else [e[0]]) + Escape(e[1..])
  }

  function Join(list: seq<string>): string
    requires list != []
  {
    if |list| == 1 then Escape(list[0]) else Escape(list[0]) + [SEP] + Join(list[1..])
  }

  /** print_str_list: the elements as they are, with separators between them. */
  function Print(list: seq<string>): string
    requires list != []
  {
    if |list| == 1 then list[0] else list[0] + [SEP] + Print(list[1..])
  }

  predicate EndsInBackslash(e: string) {
    e != "" && e[|e| - 1] == '\\'
  }

  /** No element but the last ends in a backslash. */
  predicate Separable(list: seq<string>) {
    forall i | 0 <= i < |list| - 1 :: !EndsInBackslash(list[i])
  }

  // ---------------------------------------------------------------- splitting undoes joining

  lemma {:induction false} UnescapeEscape(e: string)
    ensures Unescape(Escape(e)) == e
  {
    if e != "" {
      var rest := Escape(e[1..]);
      UnescapeEscape(e[1..]);
      if e[0] == SEP {
        assert Escape(e)[2..] == rest;
      } else {
        assert Escape(e)[1..] == rest;
        assert rest != "" ==> rest[0] != SEP;
      }
    }
  }

  lemma {:induction false} EscapeEnds(e: string)
    ensures EndsInBackslash(Escape(e)) <==> EndsInBackslash(e)
  {
    if |e| > 1 { EscapeEnds(e[1..]); }
  }

  /** No separator inside an escaped element ends it. */
  lemma {:induction false} EscapeSkipped(a: string, e: string, tail: string, s: string, i: nat, j: nat)
    requires s == a + Escape(e) + tail && i == |a| && j == i + |Escape(e)|
    ensures NextSep(s, i) == NextSep(s, j)
    decreases e
  {
    if e != "" {
      var c := if e[0] == SEP then "\\" + [SEP] else [e[0]];
      assert s == (a + c) + Escape(e[1..]) + tail;
      EscapeSkipped(a + c, e[1..], tail, s, i + |c|, j);
      assert s[i] == c[0] && (|c| == 2 ==> s[i + 1] == c[1]);
    }
  }

  /** The first element of a joined list. */
  lemma FirstElement(e: string, tail: string, s: string, n: nat)
    requires s == Escape(e) + tail && n == |Escape(e)| && (tail == "" || tail[0] == SEP)
    ensures s[..n] == Escape(e) && Unescape(s[..n]) == e
    ensures tail == "" ==> NextSep(s, 0) == None
    ensures tail != "" ==> s[n + 1..] == tail[1..]
    ensures tail != "" && !EndsInBackslash(e) ==> NextSep(s, 0) == Some(n)
  {
    assert "" + Escape(e) + tail == s;
    EscapeSkipped("", e, tail, s, 0, n);
    UnescapeEscape(e);
    EscapeEnds(e);
    assert tail != "" ==> s[n] == tail[0];
    assert n > 0 ==> s[n - 1] == Escape(e)[n - 1];
  }

  lemma {:induction false} SplitJoin(list: seq<string>)
    requires list != [] && Separable(list)
    ensures Split(Join(list)) == list
  {
    var s, n := Join(list), |Escape(list[0])|;
    if |list| == 1 {
      assert Escape(list[0]) + "" == s;
      FirstElement(list[0], "", s, n);
      assert s[..n] == s;
    } else {
      var more := Join(list[1..]);
      assert s == Escape(list[0]) + ([SEP] + more) && ([SEP] + more)[1..] == more;
      FirstElement(list[0], [SEP] + more, s, n);
      assert Separable(list[1..]) by {
        forall i | 0 <= i < |list| - 2 ensures !EndsInBackslash(list[1..][i]) { assert !EndsInBackslash(list[i + 1]); }
      }
      SplitJoin(list[1..]);
    }
  }

  // ---------------------------------------------------------------- and only then

  lemma {:induction false} EscapeConcat(a: string, b: string)
    ensures Escape(a + b) == Escape(a) + Escape(b)
    decreases a
  {
    if a == "" {
      assert a + b == b;
    } else {
      assert (a + b)[1..] == a[1..] + b;
      EscapeConcat(a[1..], b);
    }
  }

  /** A backslash at the end of an element makes it one with the next. */
  function Merged(list: seq<string>): seq<string>
    requires |list| > 1 && EndsInBackslash(list[0])
  {
    [list[0][..|list[0]| - 1] + [SEP] + list[1]] + list[2..]
  }

  lemma EscapeMerged(e: string, f: string)
    ensures Escape(e + [SEP] + f) == Escape(e) + ("\\" + [SEP]) + Escape(f)
    ensures Escape(e + "\\") == Escape(e) + "\\"
  {
    EscapeConcat(e, "\\");
    EscapeConcat(e, [SEP]);
    EscapeConcat(e + [SEP], f);
    assert [SEP][1..] == "" && Escape([SEP]) == "\\" + [SEP];
    assert "\\"[1..] == "" && Escape("\\") == "\\";
  }

  /** What follows the first element of a joined list. */
  function Tail(list: seq<string>): string
    requires list != []
  {
    if |list| == 1 then "" else [SEP] + Join(list[1..])
  }

  lemma JoinFirst(list: seq<string>)
    requires list != []
    ensures Join(list) == Escape(list[0]) + Tail(list)
  {
    if |list| > 1 {
      var e, rest := Escape(list[0]), Join(list[1..]);
      assert Join(list) == e + [SEP] + rest && Tail(list) == [SEP] + rest;
    }
  }

  lemma Regroup(a: string, b: string, c: string)
    ensures a + "\\" + ([SEP] + (b + c)) == a + ("\\" + [SEP]) + b + c
  {
  }

  lemma TailMerged(list: seq<string>)
    requires |list| > 1 && EndsInBackslash(list[0])
    ensures Tail(list) == [SEP] + (Escape(list[1]) + Tail(Merged(list)))
  {
    assert Merged(list)[1..] == list[2..] && list[1..][1..] == list[2..];
    JoinFirst(list[1..]);
  }

  lemma LeftJoined(list: seq<string>, e: string)
    requires list != [] && list[0] == e + "\\"
    ensures Join(list) == Escape(e) + "\\" + Tail(list)
  {
    EscapeMerged(e, "");
    JoinFirst(list);
  }

  lemma RightJoined(merged: seq<string>, e: string, f: string)
    requires merged != [] && merged[0] == e + [SEP] + f
    ensures Join(merged) == Escape(e) + ("\\" + [SEP]) + Escape(f) + Tail(merged)
  {
    EscapeMerged(e, f);
    JoinFirst(merged);
  }

  lemma JoinMerged(list: seq<string>)
    requires |list| > 1 && EndsInBackslash(list[0])
    ensures Join(list) == Join(Merged(list))
  {
    var e, f, merged := list[0][..|list[0]| - 1], list[1], Merged(list);
    LeftJoined(list, e);
    RightJoined(merged, e, f);
    TailMerged(list);
    Regroup(Escape(e), Escape(f), Tail(merged));
  }

  lemma {:induction false} SplitsInto(list: seq<string>)
    requires list != []
    ensures |Split(Join(list))| <= |list|
    ensures !Separable(list) ==> |Split(Join(list))| < |list|
    decreases |list|
  {
    if |list| > 1 {
      if EndsInBackslash(list[0]) {
        JoinMerged(list);
        SplitsInto(Merged(list));
      } else {
        var s, n, more := Join(list), |Escape(list[0])|, Join(list[1..]);
        assert s == Escape(list[0]) + ([SEP] + more) && ([SEP] + more)[1..] == more;
        FirstElement(list[0], [SEP] + more, s, n);
        SplitsInto(list[1..]);
        if !Separable(list) {
          var i :| 0 <= i < |list| - 1 && EndsInBackslash(list[i]);
          assert list[1..][i - 1] == list[i];
        }
      }
    } else {
      SplitJoin(list);
    }
  }

  /** Joining with escaped separators is undone by splitting exactly when no element but the last ends
      in a backslash. */
  lemma RoundTrip(list: seq<string>)
    requires list != []
    ensures Split(Join(list)) == list <==> Separable(list)
  {
    SplitsInto(list);
    if Separable(list) { SplitJoin(list); }
  }

  /** The one list whose text parse_str_list will not take at all. */
  lemma OnlyEmptyIsMissing(list: seq<string>)
    requires list != []
    ensures Join(list) == "" <==> list == [""]
  {
    assert Escape(list[0]) == "" <==> list[0] == "";
  }

  // ---------------------------------------------------------------- the program's own printing

  function Total(list: seq<string>): nat {
    if list == [] then 0 else |list[0]| + Total(list[1..])
  }

  /** An element as long as the text it came from had no separator in it. */
  lemma ElementLength(s: string, n: nat, e: string)
    requires n == End(s) && e == Unescape(s[..n])
    ensures |e| <= n <= |s| && (|e| == n ==> e == s[..n] && SEP !in e)
  {
    var d := Index(s, 0);
    assert s[0..] == s;
    IndexSkips(s, 0);
    if 0 < d < |s| && s[d - 1] == '\\' {
      EscapedGoesOn(s, d);
      UnescapePast(s, d, n);
    } else {
      UnescapeFree(s[..d]);
    }
  }

  lemma {:induction false} SplitLength(s: string)
    ensures Total(Split(s)) + |Split(s)| - 1 <= |s|
    ensures Total(Split(s)) + |Split(s)| - 1 == |s| ==> forall e <- Split(s) :: SEP !in e
  {
    var n := End(s);
    ElementLength(s, n, Unescape(s[..n]));
    if NextSep(s, 0).Some? {
      var rest := Split(s[n + 1..]);
      SplitLength(s[n + 1..]);
      assert Split(s) == [Unescape(s[..n])] + rest && Split(s)[1..] == rest;
    } else {
      assert s[..n] == s && Split(s)[1..] == [];
    }
  }

  lemma {:induction false} PrintLength(list: seq<string>)
    requires list != []
    ensures |Print(list)| == Total(list) + |list| - 1
  {
    if |list| > 1 { PrintLength(list[1..]); } else { assert list[1..] == []; }
  }

  lemma {:induction false} EscapeNothing(e: string)
    requires SEP !in e
    ensures Escape(e) == e
  {
    if e != "" { EscapeNothing(e[1..]); }
  }

  lemma {:induction false} PrintIsJoin(list: seq<string>)
    requires list != [] && forall e <- list :: SEP !in e
    ensures Print(list) == Join(list)
  {
    EscapeNothing(list[0]);
    if |list| > 1 { PrintIsJoin(list[1..]); }
  }

  /** What print_str_list writes is read back as it was exactly when no element has a separator in it and
      none but the last ends in a backslash. */
  lemma PrintRoundTrip(list: seq<string>)
    requires list != []
    ensures Split(Print(list)) == list <==> Separable(list) && forall e <- list :: SEP !in e
  {
    if Split(Print(list)) == list {
      PrintLength(list);
      SplitLength(Print(list));
    }
    if forall e <- list :: SEP !in e {
      PrintIsJoin(list);
      RoundTrip(list);
    }
  }
}

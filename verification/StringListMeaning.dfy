/** What setting a string list by a name with a suffix does. */
module StringListMeaning {
  import opened Util
  import opened SeparatedText
  import opened StringLists
  import opened ConfigNames

  /** An option named with a star, set by its stem and more: -add puts the new elements behind the old ones, -pre before
      them, -del takes out those it names, -clr all, in large or small letters; and anything else is no option. */
  lemma SuffixMeans(stem: string, begin: string, suffix: string, was: seq<string>, texts: seq<string>,
      number: string -> Option<int>)
    requires |begin| == |stem| && suffix != ""
    ensures var op := OpOf(stem + "*", begin + suffix);
      && (SameName(suffix, "-add") ==> op != NoSuch && op != Clear && Left(op, was, texts, number) == was + texts)
      && (SameName(suffix, "-pre") ==> op != NoSuch && op != Clear && Left(op, was, texts, number) == texts + was)
      && (SameName(suffix, "-del") ==>
            op != NoSuch && op != Clear && Left(op, was, texts, number) == Unnamed(was, Named(texts, number), 0))
      && (SameName(suffix, "-clr") ==> op == Clear && Left(op, was, texts, number) == [])
      && (op != NoSuch <==>
            SameName(suffix, "-add") || SameName(suffix, "-pre") || SameName(suffix, "-del")
                || SameName(suffix, "-clr"))
  {
    var name, n := begin + suffix, |stem|;
    assert name[n..] == suffix;
    LowerSame(suffix, "-add");
    LowerSame(suffix, "-pre");
    LowerSame(suffix, "-del");
    LowerSame(suffix, "-clr");
    assert Lower("-add") == "-add" && Lower("-pre") == "-pre" && Lower("-del") == "-del" && Lower("-clr") == "-clr";
  }

  /** By any other option, or by the stem alone, the new elements replace the old ones. */
  lemma WithoutSuffix(option: string, name: string, was: seq<string>, texts: seq<string>, number: string -> Option<int>)
    requires option != "" && (option[|option| - 1] == '*' ==> |name| < |option|)
    ensures OpOf(option, name) != NoSuch && OpOf(option, name) != Clear
    ensures Left(OpOf(option, name), was, texts, number) == texts
  {
  }

  /** How many of the first n indices from at on are not named. */
  function KeptBefore(named: set<int>, at: nat, n: nat): nat {
    if n == 0 then 0 else KeptBefore(named, at, n - 1) + if at + n - 1 in named then 0 else 1
  }

  lemma {:induction false} KeptShift(named: set<int>, at: nat, n: nat)
    requires n > 0
    ensures KeptBefore(named, at, n) == (if at in named then 0 else 1) + KeptBefore(named, at + 1, n - 1)
  {
    if n > 1 { KeptShift(named, at, n - 1); }
  }

  /** An element whose index is not named stands, in what is left, behind as many as were kept before it; and there is
      no other. */
  lemma {:induction false} UnnamedAt(list: seq<string>, named: set<int>, at: nat, i: nat)
    requires i < |list|
    ensures |Unnamed(list, named, at)| == KeptBefore(named, at, |list|)
    ensures at + i !in named ==> var k := KeptBefore(named, at, i);
      k < |Unnamed(list, named, at)| && Unnamed(list, named, at)[k] == list[i]
    decreases list
  {
    KeptShift(named, at, |list|);
    if |list| > 1 {
      UnnamedAt(list[1..], named, at + 1, if i > 0 then i - 1 else 0);
      if i > 0 { KeptShift(named, at, i); }
    } else {
      assert Unnamed(list[1..], named, at + 1) == [];
    }
  }

  /** An element of the old list stays under -del exactly when no text is its index; it then stands behind as many as
      stay before it. */
  lemma DeletedIff(was: seq<string>, texts: seq<string>, number: string -> Option<int>, i: nat)
    requires i < |was|
    ensures var named := Named(texts, number);
      (i in named <==> exists t <- texts :: number(t) == Some(i)) && (i !in named ==>
        var k := KeptBefore(named, 0, i); k < |Unnamed(was, named, 0)| && Unnamed(was, named, 0)[k] == was[i])
  {
    UnnamedAt(was, Named(texts, number), 0, i);
  }

  // ---------------------------------------------------------------- what is answered

  lemma UnescapeSome(e: string)
    ensures Unescape(e) == "" <==> e == ""
  {
  }

  /** The number that is held against the limits is that of the elements, but for an empty last one. */
  lemma {:induction false} CountIs(s: string)
    ensures var e := Split(s); Count(s) == if e[|e| - 1] == "" then |e| - 1 else |e|
  {
    if s != "" {
      match NextSep(s, 0)
      case None => UnescapeSome(s);
      case Some(i) => CountIs(s[i + 1..]);
    }
  }

  /** Any list that is not empty is taken if it has no fewer elements than the least number and no more than the most,
      where there is one. */
  lemma LimitsMean(op: Op, text: string, limits: Limits)
    requires op != NoSuch && op != Clear && text != ""
    ensures var e := Split(text); var n := if e[|e| - 1] == "" then |e| - 1 else |e|;
      AnswerTo(op, Some(text), limits) ==
        if (limits.min.Some? && n < limits.min.value) || (limits.max.Some? && n > limits.max.value) then OutOfRange
        else Done
  {
    CountIs(text);
  }

  /** An unknown suffix is refused whatever the text, clearing needs none, and all else needs one. */
  lemma TextNeeded(op: Op, param: Option<string>, limits: Limits)
    ensures op == NoSuch ==> AnswerTo(op, param, limits) == Unknown
    ensures op == Clear ==> AnswerTo(op, param, limits) == Done
    ensures op != NoSuch && op != Clear
        ==> (AnswerTo(op, param, limits) == Missing <==> param == None || param == Some(""))
  {
  }
}

/** Object-settings lists of m_option.c: deleting by index, in place. */
module ObjectLists {
  import opened Util

  /** A cell of the list: an object, one marked for removal, or the end of the list. */
  datatype Cell = Object(name: string, attribs: seq<string>) | Removed | End

  datatype Answer = Done | Invalid

  /** The objects still there. */
  function Remaining(cells: seq<Cell>): seq<Cell> {
    if cells == [] then [] else (if cells[0].Removed? then [] else [cells[0]]) + Remaining(cells[1..])
  }

  lemma {:induction false} RemainingConcat(a: seq<Cell>, b: seq<Cell>)
    ensures Remaining(a + b) == Remaining(a) + Remaining(b)
    decreases a
  {
    if a == [] {
      assert a + b == b;
    } else {
      assert (a + b)[1..] == a[1..] + b;
      RemainingConcat(a[1..], b);
    }
  }

  lemma {:induction false} RemainingAll(cells: seq<Cell>)
    requires forall c <- cells :: !c.Removed?
    ensures Remaining(cells) == cells
  {
    if cells != [] { RemainingAll(cells[1..]); }
  }

  function Without(cells: seq<Cell>, i: nat): seq<Cell>
    requires i < |cells|
  {
    cells[..i] + cells[i + 1..]
  }

  lemma RemainingSkips(a: seq<Cell>, c: Cell, b: seq<Cell>, tail: seq<Cell>, all: seq<Cell>)
    requires c.Removed? && tail == [c] + b && all == a + tail
    ensures Remaining(all) == Remaining(a + b)
  {
    RemainingConcat(a, b);
    RemainingConcat(a, tail);
    assert tail[1..] == b;
  }

  lemma RemainingWithout(cells: seq<Cell>, i: nat)
    requires i < |cells| && cells[i].Removed?
    ensures Remaining(Without(cells, i)) == Remaining(cells)
  {
    var a, b := cells[..i], cells[i + 1..];
    var tail := [cells[i]] + b;
    assert cells == a + tail;
    RemainingSkips(a, cells[i], b, tail, cells);
  }

  /** The array is the live cells and nothing but ends after them. */
  ghost predicate Filled(a: array<Cell>, live: seq<Cell>)
    reads a
  {
    && |live| < a.Length && a[..|live|] == live
    && (forall i | 0 <= i < |live| :: live[i] != End)
    && forall i | |live| <= i < a.Length :: a[i] == End
  }

  /** memmove that takes out cell i. */
  method Shift(a: array<Cell>, i: nat, max: nat, ghost live: seq<Cell>)
    requires Filled(a, live) && i < max == |live|
    modifies a
    ensures Filled(a, Without(live, i))
  {
    forall j | i <= j < max { a[j] := a[j + 1]; }
    assert a[..max - 1] == Without(live, i);
  }

  /** The last loop of obj_settings_list_del: what is left are the unmarked objects in their order, and the
      scan never leaves the array although it steps past the shrinking list's end. */
  method Compact(a: array<Cell>, max0: nat, ghost was: seq<Cell>) returns (max: nat)
    requires Filled(a, was) && max0 == |was|
    modifies a
    ensures Filled(a, Remaining(was)) && max == |Remaining(was)|
  {
    ghost var live := was;
    var i := 0;
    max := max0;
    while a[i] != End
      invariant Filled(a, live) && max == |live| <= max0 && Remaining(live) == Remaining(was)
      invariant i <= max || (i == max + 1 && max < max0)
      invariant forall j | 0 <= j < i && j < max :: !live[j].Removed?
      decreases a.Length - i
    {
      while a[i] == Removed
        invariant Filled(a, live) && max == |live| <= max0 && Remaining(live) == Remaining(was)
        invariant i <= max && (i == max ==> max < max0)
        invariant forall j | 0 <= j < i :: !live[j].Removed?
        decreases max
      {
        RemainingWithout(live, i);
        Shift(a, i, max, live);
        live := Without(live, i);
        max := max - 1;
      }
      i := i + 1;
    }
    RemainingAll(live);
  }

  // ---------------------------------------------------------------- marking

  /** The place that an index text names in a list of n objects, counted from the end if negative. */
  function Place(id: int, n: nat): Option<nat> {
    if id >= n || id + n < 0 then None else Some(if id < 0 then n + id else id)
  }

  /** The first texts, up to one that is no number, with what they mark. */
  function Marks(texts: seq<string>, number: string -> Option<int>, n: nat): set<nat> {
    if texts == [] || number(texts[0]).None? then {}
    else
      var p := Place(number(texts[0]).value, n);
      (if p.None? then {} else {p.value}) + Marks(texts[1..], number, n)
  }

  predicate AllNumbers(texts: seq<string>, number: string -> Option<int>) {
    forall t <- texts :: number(t).Some?
  }

  function Marked(cells: seq<Cell>, marks: set<nat>): seq<Cell> {
    seq(|cells|, i requires 0 <= i < |cells| => if i in marks then Removed else cells[i])
  }

  /** The objects whose place is not marked. */
  function Unmarked(cells: seq<Cell>, marks: set<nat>, at: nat): seq<Cell> {
    if cells == [] then [] else (if at in marks then [] else [cells[0]]) + Unmarked(cells[1..], marks, at + 1)
  }

  lemma {:induction false} RemainingIsUnmarked(cells: seq<Cell>, was: seq<Cell>, marks: set<nat>, at: nat)
    requires |cells| == |was| && (forall c <- was :: !c.Removed?)
    requires forall i | 0 <= i < |was| :: cells[i] == if at + i in marks then Removed else was[i]
    ensures Remaining(cells) == Unmarked(was, marks, at)
    decreases was
  {
    if was != [] {
      forall i | 0 <= i < |was| - 1 ensures cells[1..][i] == if at + 1 + i in marks then Removed else was[1..][i] {
        assert cells[1..][i] == cells[i + 1];
      }
      RemainingIsUnmarked(cells[1..], was[1..], marks, at + 1);
    }
  }

  /** obj_settings_list_del: the named objects go, the others stay in their order.  A text that is no
      number stops everything, with the objects named before it marked but not taken out. */
  method DeleteNamed(a: array<Cell>, texts: seq<string>, number: string -> Option<int>, ghost was: seq<Cell>)
    returns (r: Answer, max: nat)
    requires Filled(a, was) && forall c <- was :: !c.Removed?
    modifies a
    ensures r == if AllNumbers(texts, number) then Done else Invalid
    ensures var marks := Marks(texts, number, |was|);
      Filled(a, if r == Done then Unmarked(was, marks, 0) else Marked(was, marks))
          && (r == Done ==> max == |Unmarked(was, marks, 0)|)
  {
    max := 0;
    while a[max] != End
      invariant max <= |was|
      decreases |was| - max
    {
      max := max + 1;
    }
    ghost var marks, all := {}, Marks(texts, number, |was|);
    var i := 0;
    assert Marked(was, {}) == was;
    while i < |texts|
      invariant 0 <= i <= |texts| && AllNumbers(texts[..i], number)
      invariant Filled(a, Marked(was, marks)) && marks + Marks(texts[i..], number, |was|) == all
    {
      var id := number(texts[i]);
      if id == None { return Invalid, max; }
      assert texts[i..][1..] == texts[i + 1..];
      var p := Place(id.value, max);
      if p.Some? {
        MarkOne(a, p.value, was, marks);
        marks := marks + {p.value};
      }
      i := i + 1;
    }
    assert texts[i..] == [] && texts[..i] == texts && marks == all;
    RemainingIsUnmarked(Marked(was, marks), was, marks, 0);
    max := Compact(a, max, Marked(was, marks));
    r := Done;
  }

  method MarkOne(a: array<Cell>, p: nat, ghost was: seq<Cell>, ghost marks: set<nat>)
    requires Filled(a, Marked(was, marks)) && p < |was|
    modifies a
    ensures Filled(a, Marked(was, marks + {p}))
  {
    a[p] := Removed;
  }

  // ---------------------------------------------------------------- what the indices name

  /** The i-th of n objects is marked exactly when its number is named, counted from 0 or, below 0, from the end. */
  lemma {:induction false} MarksIff(texts: seq<string>, number: string -> Option<int>, n: nat, i: nat)
    requires AllNumbers(texts, number) && i < n
    ensures i in Marks(texts, number, n) <==>
      exists t <- texts :: number(t).Some? && (number(t).value == i || number(t).value == i - n)
    decreases texts
  {
    if texts != [] {
      assert forall t <- texts[1..] :: t in texts;
      assert texts[0] in texts;
      MarksIff(texts[1..], number, n, i);
      assert forall t :: t in texts <==> t == texts[0] || t in texts[1..];
    }
  }

  /** Before a text that is no number the same holds, and behind it nothing is marked. */
  lemma {:induction false} MarksUpTo(good: seq<string>, bad: string, rest: seq<string>, number: string -> Option<int>,
      n: nat)
    requires AllNumbers(good, number) && number(bad) == None
    ensures Marks(good + [bad] + rest, number, n) == Marks(good, number, n)
    decreases good
  {
    var all := good + [bad] + rest;
    if good == [] {
      assert all[0] == bad;
    } else {
      assert forall t <- good[1..] :: t in good;
      assert good[0] in good && all[0] == good[0] && all[1..] == good[1..] + [bad] + rest;
      MarksUpTo(good[1..], bad, rest, number, n);
    }
  }

  /** How many of the first n places from at on are not marked. */
  function KeptBefore(marks: set<nat>, at: nat, n: nat): nat {
    if n == 0 then 0 else KeptBefore(marks, at, n - 1) + if at + n - 1 in marks then 0 else 1
  }

  lemma {:induction false} KeptShift(marks: set<nat>, at: nat, n: nat)
    requires n > 0
    ensures KeptBefore(marks, at, n) == (if at in marks then 0 else 1) + KeptBefore(marks, at + 1, n - 1)
  {
    if n > 1 { KeptShift(marks, at, n - 1); }
  }

  /** An object that is not marked stands, in what is left, behind as many as were kept before it; and there is no
      other. */
  lemma {:induction false} UnmarkedAt(cells: seq<Cell>, marks: set<nat>, at: nat, i: nat)
    requires i < |cells|
    ensures |Unmarked(cells, marks, at)| == KeptBefore(marks, at, |cells|)
    ensures at + i !in marks ==> var k := KeptBefore(marks, at, i);
      k < |Unmarked(cells, marks, at)| && Unmarked(cells, marks, at)[k] == cells[i]
    decreases cells
  {
    KeptShift(marks, at, |cells|);
    if |cells| > 1 {
      UnmarkedAt(cells[1..], marks, at + 1, if i > 0 then i - 1 else 0);
      if i > 0 { KeptShift(marks, at, i); }
    } else {
      assert Unmarked(cells[1..], marks, at + 1) == [];
    }
  }
}

/** What a walk over a play tree visits. */
module IterTheorems {
  import opened Util
  import opened ConfigModel
  import opened PlayTrees
  import opened IterModel

  // ---------------------------------------------------------------- the specification: flattening

  function Repeat(entries: seq<PlayTree>, n: nat): seq<PlayTree> {
    if n == 0 then [] else entries + Repeat(entries, n - 1)
  }

  /** A file is itself; a group is its children's flattening, played max(1, loop) times. */
  function Flatten(s: Shape, loops: map<PlayTree, int>, n: PlayTree): seq<PlayTree>
    requires ShapeOk(s) && n in s.kids && loops.Keys == s.kids.Keys
    decreases Room(s, n), |s.kids[n]| + 1
  {
    if n in s.entries then [n] else Repeat(FlattenFrom(s, loops, n, 0), Max(1, loops[n]))
  }

  /** The children of n from number i on, flattened one after the other. */
  function FlattenFrom(s: Shape, loops: map<PlayTree, int>, n: PlayTree, i: nat): seq<PlayTree>
    requires ShapeOk(s) && n in s.kids && loops.Keys == s.kids.Keys && i <= |s.kids[n]|
    decreases Room(s, n), |s.kids[n]| - i
  {
    if i == |s.kids[n]| then []
    else
      assert ChildOk(s, n, i);
      Flatten(s, loops, s.kids[n][i]) + FlattenFrom(s, loops, n, i + 1)
  }

  /** What is still to come once node n is done: the rest of this round of its group, the
      rounds left to play, and then whatever follows the group. */
  function Rest(s: Shape, loops: map<PlayTree, int>, n: PlayTree, loop: int, stack: seq<int>): seq<PlayTree>
    requires ShapeOk(s) && n in s.kids && loops.Keys == s.kids.Keys && |stack| == s.depth[n]
    decreases s.depth[n]
  {
    if n == s.root then []
    else
      assert UpOk(s, n) && ChildOk(s, s.up[n], s.pos[n]);
      var q, top := s.up[n], |stack| - 1;
      FlattenFrom(s, loops, q, s.pos[n] + 1)
        + (Repeat(FlattenFrom(s, loops, q, 0), if loops[q] > 0 then Max(0, loop) else 0)
        + Rest(s, loops, q, stack[top], stack[..top]))
  }

  function Coming(p: Playlist, it: Iter): seq<PlayTree>
    requires Ready(p, it)
  {
    Rest(p.shape, it.loops, it.tree, it.loop, it.stack)
  }

  // ---------------------------------------------------------------- loop counters

  /** The counter of every group on the way to n lies between 0 and the group's loop, if that is positive. */
  ghost predicate CountersOk(s: Shape, loops: map<PlayTree, int>, n: PlayTree, loop: int, stack: seq<int>)
    requires ShapeOk(s) && n in s.kids && loops.Keys == s.kids.Keys && |stack| == s.depth[n]
    decreases s.depth[n]
  {
    n == s.root ||
    (assert UpOk(s, n) && ChildOk(s, s.up[n], s.pos[n]);
     var q, top := s.up[n], |stack| - 1;
     && (loops[q] > 0 ==> 0 <= loop <= loops[q])
     && CountersOk(s, loops, q, stack[top], stack[..top]))
  }

  ghost predicate Counting(p: Playlist, it: Iter)
    requires Ready(p, it)
  {
    CountersOk(p.shape, it.loops, it.tree, it.loop, it.stack)
  }

  /** A plain list: no group is shuffled. */
  ghost predicate InOrder(p: Playlist) {
    p.shuffled == {}
  }

  lemma WithinCounts(p: Playlist, it: Iter, d: int)
    requires Ready(p, it) && p.shape.kids[it.tree] != [] && Counting(p, it)
    ensures Counting(p, Within(p, it, d)) && Within(p, it, d).loops == it.loops
  {
    var kids := p.shape.kids[it.tree];
    assert ChildOk(p.shape, it.tree, if d >= 0 then 0 else |kids| - 1);
    var r := Within(p, it, d);
    assert r.stack[..|r.stack| - 1] == it.stack;
  }

  lemma SiblingCounts(p: Playlist, it: Iter, i: nat)
    requires Ready(p, it) && i < |Siblings(p.shape, it.tree)| && Counting(p, it)
    ensures var at := it.(tree := Siblings(p.shape, it.tree)[i]); Ready(p, at) && Counting(p, at)
  {
    SiblingFacts(p.shape, it.tree, i);
    if it.tree != p.shape.root {
      assert UpOk(p.shape, it.tree) && ChildOk(p.shape, p.shape.up[it.tree], p.shape.pos[it.tree]);
    }
  }

  lemma RewindCounts(p: Playlist, it: Iter, d: int)
    requires Ready(p, it) && LoopsAgain(p, it, d) && Counting(p, it)
    ensures Counting(p, Rewind(p, it, d)) && Rewind(p, it, d).loops == it.loops
  {
    var all := Siblings(p.shape, it.tree);
    SiblingFacts(p.shape, it.tree, if d > 0 then 0 else |all| - 1);
    assert UpOk(p.shape, it.tree) && ChildOk(p.shape, p.shape.up[it.tree], p.shape.pos[it.tree]);
    assert UpOk(p.shape, Rewind(p, it, d).tree);
  }

  /** Whatever the direction, and whatever loops forever, no counter leaves its range. */
  lemma {:induction false} StepCounts(p: Playlist, it: Iter, d: int, withNodes: bool)
    requires Ready(p, it) && InOrder(p) && Counting(p, it)
    ensures var r := Step(p, it, d, withNodes).0; Counting(p, r) && r.loops == it.loops
    decreases if d == 0 then 0 else p.shape.depth[it.tree] + 1, Room(p.shape, it.tree), 4
  {
    InOrderCounts(p, Leave(p, it), d, withNodes);
  }

  lemma {:induction false} InOrderCounts(p: Playlist, it: Iter, d: int, withNodes: bool)
    requires Ready(p, it) && InOrder(p) && Counting(p, it)
    ensures var r := StepInOrder(p, it, d, withNodes).0; Counting(p, r) && r.loops == it.loops
    decreases if d == 0 then 0 else p.shape.depth[it.tree] + 1, Room(p.shape, it.tree), 3
  {
    var all, i := Siblings(p.shape, it.tree), Pos(p.shape, it.tree);
    if 0 <= i + d < |all| {
      SiblingCounts(p, it, i + d);
      SiblingFacts(p.shape, it.tree, i + d);
      ArriveCounts(p, it, all[i + d], Sign(d), withNodes);
    } else {
      OffTheEndCounts(p, it, Leftover(d, i, |all|), withNodes);
    }
  }

  lemma {:induction false} OffTheEndCounts(p: Playlist, it: Iter, d: int, withNodes: bool)
    requires Ready(p, it) && d != 0 && InOrder(p) && Counting(p, it)
    ensures var r := StepOffTheEnd(p, it, d, withNodes).0; Counting(p, r) && r.loops == it.loops
    decreases p.shape.depth[it.tree] + 1, Room(p.shape, it.tree), 2
  {
    if LoopsAgain(p, it, d) {
      RewindCounts(p, it, d);
      StepCounts(p, Rewind(p, it, d), 0, withNodes);
    } else {
      UpCounts(p, it, d, withNodes);
    }
  }

  lemma {:induction false} ArriveCounts(p: Playlist, it: Iter, pt: PlayTree, d: int, withNodes: bool)
    requires Ready(p, it.(tree := pt)) && InOrder(p) && Counting(p, it.(tree := pt))
    ensures var r := Arrive(p, it, pt, d, withNodes).0; Counting(p, r) && r.loops == it.loops
    decreases 0, Room(p.shape, pt), 2
  {
    var at := it.(tree := pt);
    if p.shape.kids[pt] != [] && !withNodes {
      WithinCounts(p, at, d);
      StepCounts(p, Within(p, at, d), 0, withNodes);
    }
  }

  lemma {:induction false} UpCounts(p: Playlist, it: Iter, d: int, withNodes: bool)
    requires Ready(p, it) && InOrder(p) && Counting(p, it)
    ensures var r := Up(p, it, d, withNodes).0; Counting(p, r) && r.loops == it.loops
    decreases p.shape.depth[it.tree], p.shape.bound + 1, 0
  {
    if it.tree != p.shape.root {
      StepCounts(p, Above(p, it), d, withNodes);
    }
  }

  // ---------------------------------------------------------------- stepping forward is flattening

  ghost predicate NoEndlessLoop(loops: map<PlayTree, int>) {
    forall n | n in loops :: loops[n] >= 0
  }

  /** A plain playlist, every group of which plays a finite number of rounds. */
  ghost predicate Finite(p: Playlist, it: Iter) {
    Ready(p, it) && InOrder(p) && NoEndlessLoop(it.loops) && Counting(p, it)
  }

  /** Entering a group splits its flattening into its first child and the rest. */
  lemma GroupUnrolls(p: Playlist, it: Iter)
    requires Finite(p, it) && p.shape.kids[it.tree] != []
    ensures var below := Within(p, it, 0);
      Flatten(p.shape, it.loops, below.tree) + Coming(p, below) == Flatten(p.shape, it.loops, it.tree) + Coming(p, it)
  {
    var s, n, below := p.shape, it.tree, Within(p, it, 0);
    assert ChildOk(s, n, 0);
    var first := Flatten(s, it.loops, below.tree);
    var round := FlattenFrom(s, it.loops, n, 0);
    var after := FlattenFrom(s, it.loops, n, 1);
    var more := Repeat(round, Max(1, it.loops[n]) - 1);
    assert below.stack[..|it.stack|] == it.stack;
    assert Coming(p, below) == after + (more + Coming(p, it));
    assert round == first + after;
    assert Flatten(s, it.loops, n) == round + more;
    assert first + (after + (more + Coming(p, it))) == (first + after) + more + Coming(p, it);
  }

  /** Going down arrives at the first child. */
  lemma DownArrives(p: Playlist, it: Iter, d: int)
    requires Ready(p, it) && InOrder(p) && p.shape.kids[it.tree] != [] && d >= 0
    ensures var below := Within(p, it, 0);
      Down(p, it, d, false) == Arrive(p, Leave(p, below), below.tree, 0, false)
  {
    var below := Within(p, it, 0);
    assert below == Within(p, it, d);
    assert Step(p, below, 0, false) == StepInOrder(p, Leave(p, below), 0, false);
  }

  /** Arriving at pt stops at its first entry, with the rest of pt and all that follows pt still to come. */
  lemma {:induction false} ArriveFlattens(p: Playlist, it: Iter, pt: PlayTree, d: int)
    requires Finite(p, it.(tree := pt)) && d >= 0
    ensures var (r, status) := Arrive(p, it, pt, d, false);
      && status == ENTRY && Finite(p, r) && r.loops == it.loops
      && [r.tree] + Coming(p, r) == Flatten(p.shape, it.loops, pt) + Coming(p, it.(tree := pt))
    decreases Room(p.shape, pt)
  {
    var at := it.(tree := pt);
    ArriveCounts(p, it, pt, d, false);
    if p.shape.kids[pt] != [] {
      var below := Within(p, at, 0);
      WithinCounts(p, at, 0);
      DownArrives(p, at, d);
      GroupUnrolls(p, at);
      ArriveFlattens(p, Leave(p, below), below.tree, 0);
    }
  }

  /** What follows the group the iterator is in. */
  function AfterGroup(p: Playlist, it: Iter): seq<PlayTree>
    requires Ready(p, it)
  {
    RestAbove(p.shape, it.loops, it.tree, it.stack)
  }

  /** A forward step stops at the next entry still to come, and at the end exactly when there is none. */
  ghost predicate Advances(p: Playlist, it: Iter, coming: seq<PlayTree>, r: Iter, status: Status)
    requires Ready(p, it) && Ready(p, r)
  {
    && Finite(p, r) && r.loops == it.loops
    && if coming == [] then status == END && r.tree == p.shape.root && Coming(p, r) == []
       else status == ENTRY && [r.tree] + Coming(p, r) == coming
  }

  /** The rounds of node n's group left after this one, with the given counter. */
  function MoreRounds(s: Shape, loops: map<PlayTree, int>, n: PlayTree, loop: int): seq<PlayTree>
    requires ShapeOk(s) && n in s.up && loops.Keys == s.kids.Keys
  {
    assert UpOk(s, n);
    Repeat(FlattenFrom(s, loops, s.up[n], 0), if loops[s.up[n]] > 0 then Max(0, loop) else 0)
  }

  /** What follows node n's group. */
  function RestAbove(s: Shape, loops: map<PlayTree, int>, n: PlayTree, stack: seq<int>): seq<PlayTree>
    requires ShapeOk(s) && n in s.kids && loops.Keys == s.kids.Keys && |stack| == s.depth[n]
  {
    if n == s.root then []
    else
      assert UpOk(s, n) && ChildOk(s, s.up[n], s.pos[n]);
      Rest(s, loops, s.up[n], stack[|stack| - 1], stack[..|stack| - 1])
  }

  /** Rest, read off at sibling number i. */
  lemma RestAt(s: Shape, loops: map<PlayTree, int>, n: PlayTree, i: nat, loop: int, stack: seq<int>)
    requires ShapeOk(s) && n in s.up && loops.Keys == s.kids.Keys && |stack| == s.depth[n] && i < |Siblings(s, n)|
    ensures var m := Siblings(s, n)[i];
      && m in s.kids && s.depth[m] == s.depth[n] && UpOk(s, n) && m == s.kids[s.up[n]][i]
      && Rest(s, loops, m, loop, stack)
         == FlattenFrom(s, loops, s.up[n], i + 1) + (MoreRounds(s, loops, n, loop) + RestAbove(s, loops, n, stack))
  {
    SiblingFacts(s, n, i);
    assert UpOk(s, n) && ChildOk(s, s.up[n], i) && UpOk(s, Siblings(s, n)[i]);
  }

  /** The next sibling's turn. */
  lemma RestNext(s: Shape, loops: map<PlayTree, int>, n: PlayTree, loop: int, stack: seq<int>)
    requires ShapeOk(s) && n in s.kids && loops.Keys == s.kids.Keys && |stack| == s.depth[n]
    requires Pos(s, n) + 1 < |Siblings(s, n)|
    ensures var next := Siblings(s, n)[Pos(s, n) + 1];
      && next in s.kids && s.depth[next] == s.depth[n]
      && Rest(s, loops, n, loop, stack) == Flatten(s, loops, next) + Rest(s, loops, next, loop, stack)
  {
    var i := Pos(s, n);
    RestAt(s, loops, n, i, loop, stack);
    RestAt(s, loops, n, i + 1, loop, stack);
    var first, after, tail := Flatten(s, loops, Siblings(s, n)[i + 1]), FlattenFrom(s, loops, s.up[n], i + 2),
                              MoreRounds(s, loops, n, loop) + RestAbove(s, loops, n, stack);
    assert first + after + tail == first + (after + tail);
  }

  /** After the last sibling comes another round, if the counter allows one. */
  lemma RestRound(s: Shape, loops: map<PlayTree, int>, n: PlayTree, loop: int, stack: seq<int>)
    requires ShapeOk(s) && n in s.up && loops.Keys == s.kids.Keys && |stack| == s.depth[n]
    requires Pos(s, n) + 1 == |Siblings(s, n)| && UpOk(s, n) && loops[s.up[n]] >= 0
    ensures if loops[s.up[n]] > 0 && loop > 0
      then var first := Siblings(s, n)[0];
        && first in s.kids && s.depth[first] == s.depth[n]
        && Rest(s, loops, n, loop, stack) == Flatten(s, loops, first) + Rest(s, loops, first, loop - 1, stack)
      else Rest(s, loops, n, loop, stack) == RestAbove(s, loops, n, stack)
  {
    RestAt(s, loops, n, Pos(s, n), loop, stack);
    if loops[s.up[n]] > 0 && loop > 0 {
      RestAt(s, loops, n, 0, loop - 1, stack);
      RoundUnrolls(s, loops, n, loop);
      Regrouped(Flatten(s, loops, Siblings(s, n)[0]), FlattenFrom(s, loops, s.up[n], 1),
          MoreRounds(s, loops, n, loop - 1), RestAbove(s, loops, n, stack));
    }
  }

  /** The rounds that are left are the first child, the others, and one round less. */
  lemma RoundUnrolls(s: Shape, loops: map<PlayTree, int>, n: PlayTree, loop: int)
    requires ShapeOk(s) && n in s.up && loops.Keys == s.kids.Keys && UpOk(s, n) && loops[s.up[n]] > 0 && loop > 0
    ensures var first := Siblings(s, n)[0];
      && first in s.kids
      && MoreRounds(s, loops, n, loop)
         == Flatten(s, loops, first) + FlattenFrom(s, loops, s.up[n], 1) + MoreRounds(s, loops, n, loop - 1)
  {
    assert ChildOk(s, s.up[n], 0);
  }

  lemma Regrouped(a: seq<PlayTree>, b: seq<PlayTree>, c: seq<PlayTree>, d: seq<PlayTree>)
    ensures a + b + c + d == a + (b + (c + d))
  {
  }

  lemma NextSibling(p: Playlist, it: Iter) returns (next: PlayTree)
    requires Finite(p, it) && Pos(p.shape, it.tree) + 1 < |Siblings(p.shape, it.tree)|
    ensures next == Siblings(p.shape, it.tree)[Pos(p.shape, it.tree) + 1] && Finite(p, it.(tree := next))
    ensures Coming(p, it) == Flatten(p.shape, it.loops, next) + Coming(p, it.(tree := next))
  {
    next := Siblings(p.shape, it.tree)[Pos(p.shape, it.tree) + 1];
    SiblingCounts(p, it, Pos(p.shape, it.tree) + 1);
    RestNext(p.shape, it.loops, it.tree, it.loop, it.stack);
  }

  /** A next sibling is arrived at. */
  lemma SiblingAdvances(p: Playlist, it: Iter) returns (r: Iter, status: Status)
    requires Finite(p, it) && Pos(p.shape, it.tree) + 1 < |Siblings(p.shape, it.tree)|
    ensures (r, status) == StepInOrder(p, it, 1, false)
    ensures Ready(p, r) && Advances(p, it, Coming(p, it), r, status)
  {
    var next := NextSibling(p, it);
    ArriveFlattens(p, it, next, 1);
    r, status := Arrive(p, it, next, 1, false).0, Arrive(p, it, next, 1, false).1;
  }

  /** With no next sibling but a round left, the first sibling is arrived at. */
  lemma RewindAdvances(p: Playlist, it: Iter)
    requires Finite(p, it) && Pos(p.shape, it.tree) + 1 == |Siblings(p.shape, it.tree)| && LoopsAgain(p, it, 1)
    ensures var (r, status) := Step(p, Rewind(p, it, 1), 0, false); Advances(p, it, Coming(p, it), r, status)
  {
    var at := Rewind(p, it, 1);
    RewindCounts(p, it, 1);
    assert UpOk(p.shape, it.tree);
    RestRound(p.shape, it.loops, it.tree, it.loop, it.stack);
    assert Step(p, at, 0, false) == Arrive(p, Leave(p, at), at.tree, 0, false);
    ArriveFlattens(p, Leave(p, at), at.tree, 0);
  }

  /** With no sibling and no round left, only what follows the group is still to come. */
  lemma GroupOver(p: Playlist, it: Iter)
    requires Finite(p, it) && Pos(p.shape, it.tree) + 1 == |Siblings(p.shape, it.tree)| && !LoopsAgain(p, it, 1)
    ensures Coming(p, it) == AfterGroup(p, it)
  {
    if it.tree != p.shape.root {
      assert UpOk(p.shape, it.tree);
      RestRound(p.shape, it.loops, it.tree, it.loop, it.stack);
    }
  }

  lemma {:induction false} StepAdvances(p: Playlist, it: Iter)
    requires Finite(p, it)
    ensures var (r, status) := Step(p, it, 1, false); Advances(p, it, Coming(p, it), r, status)
    decreases p.shape.depth[it.tree], 1
  {
    var here := Leave(p, it);
    assert Step(p, it, 1, false) == StepInOrder(p, here, 1, false);
    assert Leftover(1, |Siblings(p.shape, it.tree)| - 1, |Siblings(p.shape, it.tree)|) == 1;
    if Pos(p.shape, it.tree) + 1 < |Siblings(p.shape, it.tree)| {
      var _, _ := SiblingAdvances(p, here);
    } else if LoopsAgain(p, here, 1) {
      RewindAdvances(p, here);
    } else {
      GroupOver(p, here);
      UpAdvances(p, here);
    }
  }

  /** Leaving a group goes on with what follows the group. */
  lemma {:induction false} UpAdvances(p: Playlist, it: Iter)
    requires Finite(p, it)
    ensures var (r, status) := Up(p, it, 1, false); Advances(p, it, AfterGroup(p, it), r, status)
    decreases p.shape.depth[it.tree], 0
  {
    if it.tree != p.shape.root { StepAdvances(p, Above(p, it)); }
  }

  // ---------------------------------------------------------------- whole runs

  /** A forward step from a stops at an entry, in state b. */
  ghost predicate Goes(p: Playlist, a: Iter, b: Iter) {
    Ready(p, a) && Step(p, a, 1, false) == (b, ENTRY)
  }

  /** A forward step from a is at the end of the list, in state b. */
  ghost predicate Ends(p: Playlist, a: Iter, b: Iter) {
    Ready(p, a) && Step(p, a, 1, false) == (b, END)
  }

  ghost predicate Run(p: Playlist, states: seq<Iter>) {
    |states| > 0 && forall i | 0 <= i < |states| - 1 :: Goes(p, states[i], states[i + 1])
  }

  ghost function Visited(states: seq<Iter>): seq<PlayTree> {
    seq(|states|, i requires 0 <= i < |states| => states[i].tree)
  }

  /** The entries a and coming are the whole of it. */
  ghost predicate Covers(p: Playlist, visited: seq<PlayTree>, it: Iter, all: seq<PlayTree>) {
    Finite(p, it) && visited + Coming(p, it) == all
  }

  lemma GoesOn(p: Playlist, a: Iter, b: Iter, visited: seq<PlayTree>, all: seq<PlayTree>)
    requires Goes(p, a, b) && Covers(p, visited, a, all)
    ensures Covers(p, visited + [b.tree], b, all) && b.loops == a.loops
  {
    StepAdvances(p, a);
    assert visited + ([b.tree] + Coming(p, b)) == visited + [b.tree] + Coming(p, b);
  }

  lemma {:induction false} RunCovers(p: Playlist, states: seq<Iter>, all: seq<PlayTree>)
    requires Run(p, states) && Covers(p, [states[0].tree], states[0], all)
    ensures Covers(p, Visited(states), states[|states| - 1], all)
    decreases |states|
  {
    var n := |states| - 1;
    if n > 0 {
      var before := states[..n];
      assert Run(p, before) by {
        forall i | 0 <= i < |before| - 1 ensures Goes(p, before[i], before[i + 1]) {
          assert Goes(p, states[i], states[i + 1]);
        }
      }
      RunCovers(p, before, all);
      assert Goes(p, states[n - 1], states[n]);
      GoesOn(p, states[n - 1], states[n], Visited(before), all);
      assert Visited(states) == Visited(before) + [states[n].tree];
    } else {
      assert Visited(states) == [states[0].tree];
    }
  }

  /** A plain list without endless loops, and the state in which any iterator on it begins. */
  ghost predicate PlainStart(p: Playlist, start: Iter) {
    && PlaylistOk(p) && InOrder(p) && start.loops.Keys == p.shape.kids.Keys && NoEndlessLoop(start.loops)
    && start.played <= p.shape.kids.Keys
    && start == Start(p, start.loops, start.played, start.cfg, start.draws)
  }

  /** Creation stops at the first entry of the root. */
  lemma Created(p: Playlist, start: Iter) returns (first: Iter)
    requires PlainStart(p, start)
    ensures Ready(p, start) && Step(p, start, 0, false) == (first, ENTRY)
    ensures Covers(p, [first.tree], first, Flatten(p.shape, start.loops, p.shape.root))
  {
    assert Step(p, start, 0, false) == Arrive(p, Leave(p, start), p.shape.root, 0, false);
    ArriveFlattens(p, Leave(p, start), p.shape.root, 0);
    first := Step(p, start, 0, false).0;
  }

  /** Every run of forward steps from a created iterator has visited a prefix of the root's flattening;
      the run can go on exactly until that is exhausted, and from then on every step is at the end. */
  lemma RunsFlattenRoot(p: Playlist, start: Iter, states: seq<Iter>) returns (next: Iter)
    requires PlainStart(p, start) && Run(p, states)
    requires Ready(p, start) && Step(p, start, 0, false) == (states[0], ENTRY)
    ensures var flat := Flatten(p.shape, start.loops, p.shape.root);
      && Visited(states) <= flat
      && (Goes(p, states[|states| - 1], next) <==> |states| < |flat|)
      && (Ends(p, states[|states| - 1], next) <==> |states| == |flat|)
      && (|states| == |flat| ==> AtEnd(p, next))
  {
    var flat, last := Flatten(p.shape, start.loops, p.shape.root), states[|states| - 1];
    var first := Created(p, start);
    RunCovers(p, states, flat);
    StepAdvances(p, last);
    next := Step(p, last, 1, false).0;
  }

  ghost predicate AtEnd(p: Playlist, it: Iter) {
    Finite(p, it) && Coming(p, it) == []
  }

  lemma EndIsFinal(p: Playlist, it: Iter) returns (next: Iter)
    requires AtEnd(p, it)
    ensures Ends(p, it, next) && AtEnd(p, next)
  {
    StepAdvances(p, it);
    next := Step(p, it, 1, false).0;
  }
}

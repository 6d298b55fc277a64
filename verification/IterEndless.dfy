/** Walks over lists in which groups loop for ever. */
module IterEndless {
  import opened Util
  import opened ConfigModel
  import opened PlayTrees
  import opened IterModel
  import opened IterTheorems

  /** Every endless loop played that many rounds instead. */
  function Bounded(loops: map<PlayTree, int>, rounds: nat): (r: map<PlayTree, int>)
    ensures r.Keys == loops.Keys && NoEndlessLoop(r)
  {
    map n | n in loops :: if loops[n] < 0 then rounds else loops[n]
  }

  // ---------------------------------------------------------------- two walks side by side

  /** The counters on the way to n: those of endless groups are negative in the one walk and left rounds or more in
      the other; all others agree. */
  ghost predicate SameCounters(s: Shape, loops: map<PlayTree, int>, n: PlayTree, loop: int, stack: seq<int>,
      loop': int, stack': seq<int>, left: int)
    requires ShapeOk(s) && n in s.kids && loops.Keys == s.kids.Keys && |stack| == |stack'| == s.depth[n]
    decreases s.depth[n]
  {
    n == s.root ||
    (assert UpOk(s, n) && ChildOk(s, s.up[n], s.pos[n]);
     var q, top := s.up[n], |stack| - 1;
     && (if loops[q] < 0 then loop < 0 && loop' >= left else loop == loop')
     && SameCounters(s, loops, q, stack[top], stack[..top], stack'[top], stack'[..top], left))
  }

  /** The second walk has bounded loops, of which left rounds at least are to come, and stands where the first does. */
  ghost predicate Alike(p: Playlist, a: Iter, b: Iter, rounds: nat, left: int) {
    && Ready(p, a) && Ready(p, b) && InOrder(p) && 0 <= left < rounds
    && b == a.(loop := b.loop, stack := b.stack, loops := Bounded(a.loops, rounds))
    && SameCounters(p.shape, a.loops, a.tree, a.loop, a.stack, b.loop, b.stack, left)
  }

  lemma {:induction false} FewerLeft(s: Shape, loops: map<PlayTree, int>, n: PlayTree, loop: int, stack: seq<int>,
      loop': int, stack': seq<int>, left: int, fewer: int)
    requires ShapeOk(s) && n in s.kids && loops.Keys == s.kids.Keys && |stack| == |stack'| == s.depth[n]
    requires SameCounters(s, loops, n, loop, stack, loop', stack', left) && fewer <= left
    ensures SameCounters(s, loops, n, loop, stack, loop', stack', fewer)
    decreases s.depth[n]
  {
    if n != s.root {
      assert UpOk(s, n) && ChildOk(s, s.up[n], s.pos[n]);
      var top := |stack| - 1;
      FewerLeft(s, loops, s.up[n], stack[top], stack[..top], stack'[top], stack'[..top], left, fewer);
    }
  }

  lemma WithinAlike(p: Playlist, a: Iter, b: Iter, rounds: nat, left: int)
    requires Alike(p, a, b, rounds, left) && p.shape.kids[a.tree] != []
    ensures Alike(p, Within(p, a, 0), Within(p, b, 0), rounds, left)
  {
    assert ChildOk(p.shape, a.tree, 0);
    var r, r' := Within(p, a, 0), Within(p, b, 0);
    assert r.stack[..|r.stack| - 1] == a.stack && r'.stack[..|r'.stack| - 1] == b.stack;
  }

  lemma SiblingAlike(p: Playlist, a: Iter, b: Iter, i: nat, rounds: nat, left: int)
    requires Alike(p, a, b, rounds, left) && i < |Siblings(p.shape, a.tree)|
    ensures var n := Siblings(p.shape, a.tree)[i]; Alike(p, a.(tree := n), b.(tree := n), rounds, left)
  {
    SiblingFacts(p.shape, a.tree, i);
    if a.tree != p.shape.root {
      assert UpOk(p.shape, a.tree) && ChildOk(p.shape, p.shape.up[a.tree], p.shape.pos[a.tree]);
    }
  }

  /** While rounds are left both go round again, or neither. */
  lemma RewindAlike(p: Playlist, a: Iter, b: Iter, rounds: nat, left: int)
    requires Alike(p, a, b, rounds, left) && left > 0
    ensures LoopsAgain(p, a, 1) <==> LoopsAgain(p, b, 1)
    ensures LoopsAgain(p, a, 1) ==> Alike(p, Rewind(p, a, 1), Rewind(p, b, 1), rounds, left - 1)
  {
    if a.tree != p.shape.root {
      assert UpOk(p.shape, a.tree) && ChildOk(p.shape, p.shape.up[a.tree], p.shape.pos[a.tree]);
      SiblingAlike(p, a, b, 0, rounds, left);
      var n := Siblings(p.shape, a.tree)[0];
      FewerLeft(p.shape, a.loops, n, a.loop, a.stack, b.loop, b.stack, left, left - 1);
      SiblingFacts(p.shape, a.tree, 0);
    }
  }

  lemma AboveAlike(p: Playlist, a: Iter, b: Iter, rounds: nat, left: int)
    requires Alike(p, a, b, rounds, left) && a.tree != p.shape.root
    ensures Alike(p, Above(p, a), Above(p, b), rounds, left)
  {
    assert UpOk(p.shape, a.tree) && ChildOk(p.shape, p.shape.up[a.tree], p.shape.pos[a.tree]);
  }

  /** Two outcomes that are the same, in walks that stay alike. */
  ghost predicate Agree(p: Playlist, r: (Iter, Status), r': (Iter, Status), rounds: nat, left: int) {
    r.1 == r'.1 && Alike(p, r.0, r'.0, rounds, left)
  }

  lemma LeaveAlike(p: Playlist, a: Iter, b: Iter, rounds: nat, left: int)
    requires Alike(p, a, b, rounds, left)
    ensures Alike(p, Leave(p, a), Leave(p, b), rounds, left)
  {
  }

  lemma EnterAlike(p: Playlist, a: Iter, b: Iter, rounds: nat, left: int)
    requires Alike(p, a, b, rounds, left)
    ensures Alike(p, Enter(p, a), Enter(p, b), rounds, left)
  {
  }

  /** Going down, both arrive at the first child. */
  lemma DownAlike(p: Playlist, a: Iter, b: Iter, pt: PlayTree, d: int, rounds: nat, left: int)
    returns (c: Iter, c': Iter)
    requires Alike(p, a.(tree := pt), b.(tree := pt), rounds, left) && d >= 0 && p.shape.kids[pt] != []
    ensures Alike(p, c, c', rounds, left) && c'.tree == c.tree && Room(p.shape, c.tree) < Room(p.shape, pt)
    ensures Arrive(p, a, pt, d, false) == Arrive(p, c, c.tree, 0, false)
    ensures Arrive(p, b, pt, d, false) == Arrive(p, c', c'.tree, 0, false)
  {
    var at, at' := a.(tree := pt), b.(tree := pt);
    WithinAlike(p, at, at', rounds, left);
    LeaveAlike(p, Within(p, at, 0), Within(p, at', 0), rounds, left);
    DownArrives(p, at, d);
    DownArrives(p, at', d);
    c, c' := Leave(p, Within(p, at, 0)), Leave(p, Within(p, at', 0));
  }

  /** Arriving at a node, both stop at its first file. */
  lemma {:induction false} ArriveAlike(p: Playlist, a: Iter, b: Iter, pt: PlayTree, d: int, rounds: nat, left: int)
    requires Alike(p, a.(tree := pt), b.(tree := pt), rounds, left) && d >= 0
    ensures Arrive(p, a, pt, d, false).1 == ENTRY
    ensures Agree(p, Arrive(p, a, pt, d, false), Arrive(p, b, pt, d, false), rounds, left)
    decreases Room(p.shape, pt)
  {
    if p.shape.kids[pt] != [] {
      var c, c' := DownAlike(p, a, b, pt, d, rounds, left);
      assert c.(tree := c.tree) == c && c'.(tree := c.tree) == c';
      ArriveAlike(p, c, c', c.tree, 0, rounds, left);
    } else {
      EnterAlike(p, a.(tree := pt), b.(tree := pt), rounds, left);
    }
  }

  /** A next sibling is arrived at in both. */
  lemma NextAlike(p: Playlist, a: Iter, b: Iter, rounds: nat, left: int)
    requires Alike(p, a, b, rounds, left) && left > 0 && Pos(p.shape, a.tree) + 1 < |Siblings(p.shape, a.tree)|
    ensures Agree(p, StepInOrder(p, a, 1, false), StepInOrder(p, b, 1, false), rounds, left - 1)
  {
    hide StepInOrder, Arrive, SameCounters;
    var i := Pos(p.shape, a.tree) + 1;
    var next := Siblings(p.shape, a.tree)[i];
    NextArrives(p, a, next);
    NextArrives(p, b, next);
    SiblingAlike(p, a, b, i, rounds, left);
    LessAlike(p, a.(tree := next), b.(tree := next), rounds, left);
    ArriveAlike(p, a, b, next, 1, rounds, left - 1);
  }

  lemma NextArrives(p: Playlist, it: Iter, next: PlayTree)
    requires Ready(p, it) && Pos(p.shape, it.tree) + 1 < |Siblings(p.shape, it.tree)|
    requires next == Siblings(p.shape, it.tree)[Pos(p.shape, it.tree) + 1]
    ensures Ready(p, it.(tree := next)) && StepInOrder(p, it, 1, false) == Arrive(p, it, next, 1, false)
  {
    SiblingFacts(p.shape, it.tree, Pos(p.shape, it.tree) + 1);
  }

  lemma LessAlike(p: Playlist, a: Iter, b: Iter, rounds: nat, left: int)
    requires Alike(p, a, b, rounds, left) && left > 0
    ensures Alike(p, a, b, rounds, left - 1)
  {
    FewerLeft(p.shape, a.loops, a.tree, a.loop, a.stack, b.loop, b.stack, left, left - 1);
  }

  /** A step forward does the same in both, and takes at most one of the rounds that are left. */
  lemma {:induction false} StepAlike(p: Playlist, a: Iter, b: Iter, rounds: nat, left: int)
    requires Alike(p, a, b, rounds, left) && left > 0
    ensures Agree(p, Step(p, a, 1, false), Step(p, b, 1, false), rounds, left - 1)
    decreases p.shape.depth[a.tree], 1
  {
    var here, here', n := Leave(p, a), Leave(p, b), |Siblings(p.shape, a.tree)|;
    LeaveAlike(p, a, b, rounds, left);
    assert Step(p, a, 1, false) == StepInOrder(p, here, 1, false);
    assert Step(p, b, 1, false) == StepInOrder(p, here', 1, false);
    if Pos(p.shape, a.tree) + 1 < n {
      NextAlike(p, here, here', rounds, left);
    } else {
      assert Leftover(1, n - 1, n) == 1;
      OffTheEndAlike(p, here, here', rounds, left);
    }
  }

  lemma {:induction false} OffTheEndAlike(p: Playlist, a: Iter, b: Iter, rounds: nat, left: int)
    requires Alike(p, a, b, rounds, left) && left > 0
    ensures Agree(p, StepOffTheEnd(p, a, 1, false), StepOffTheEnd(p, b, 1, false), rounds, left - 1)
    decreases p.shape.depth[a.tree], 0
  {
    RewindAlike(p, a, b, rounds, left);
    if LoopsAgain(p, a, 1) {
      RoundAlike(p, Rewind(p, a, 1), Rewind(p, b, 1), rounds, left - 1);
    } else if a.tree != p.shape.root {
      AboveAlike(p, a, b, rounds, left);
      StepAlike(p, Above(p, a), Above(p, b), rounds, left);
    } else {
      LessAlike(p, a, b, rounds, left);
    }
  }

  lemma RoundAlike(p: Playlist, a: Iter, b: Iter, rounds: nat, left: int)
    requires Alike(p, a, b, rounds, left)
    ensures Step(p, a, 0, false).1 == ENTRY && Agree(p, Step(p, a, 0, false), Step(p, b, 0, false), rounds, left)
  {
    var here, here' := Leave(p, a), Leave(p, b);
    LeaveAlike(p, a, b, rounds, left);
    assert Step(p, a, 0, false) == Arrive(p, here, a.tree, 0, false);
    assert Step(p, b, 0, false) == Arrive(p, here', b.tree, 0, false);
    assert here.(tree := a.tree) == here && here'.(tree := a.tree) == here';
    ArriveAlike(p, here, here', a.tree, 0, rounds, left);
  }

  // ---------------------------------------------------------------- whole runs

  /** A plain list, with or without endless loops, and the state in which any iterator on it begins. */
  ghost predicate AnyStart(p: Playlist, start: Iter) {
    && PlaylistOk(p) && InOrder(p) && start.loops.Keys == p.shape.kids.Keys && start.played <= p.shape.kids.Keys
    && start == Start(p, start.loops, start.played, start.cfg, start.draws)
  }

  /** A run that begins with the creation of an iterator. */
  ghost predicate Begun(p: Playlist, start: Iter, states: seq<Iter>) {
    AnyStart(p, start) && Run(p, states) && Ready(p, start) && Step(p, start, 0, false) == (states[0], ENTRY)
  }

  /** A run without its last stop is a run. */
  lemma RunFront(p: Playlist, start: Iter, states: seq<Iter>) returns (before: seq<Iter>, last: Iter)
    requires Begun(p, start, states) && |states| > 1
    ensures states == before + [last] && Begun(p, start, before) && Goes(p, before[|before| - 1], last)
  {
    before, last := states[..|states| - 1], states[|states| - 1];
    assert Goes(p, states[|states| - 2], states[|states| - 1]);
    forall i | 0 <= i < |before| - 1 ensures Goes(p, before[i], before[i + 1]) {
      assert Goes(p, states[i], states[i + 1]);
    }
  }

  lemma RunMore(p: Playlist, start: Iter, states: seq<Iter>, next: Iter)
    requires Begun(p, start, states) && Goes(p, states[|states| - 1], next)
    ensures Begun(p, start, states + [next]) && Visited(states + [next]) == Visited(states) + [next.tree]
  {
    var more := states + [next];
    forall i | 0 <= i < |more| - 1 ensures Goes(p, more[i], more[i + 1]) {
      if i < |states| - 1 { assert Goes(p, states[i], states[i + 1]); }
    }
  }

  ghost function BoundedStart(start: Iter, rounds: nat): Iter {
    start.(loops := Bounded(start.loops, rounds))
  }

  /** The other walk, from the same start, has made the same stops. */
  ghost predicate Shadows(p: Playlist, start: Iter, states: seq<Iter>, others: seq<Iter>, rounds: nat, left: int) {
    && Begun(p, start, states) && Begun(p, BoundedStart(start, rounds), others) && Visited(others) == Visited(states)
    && Alike(p, states[|states| - 1], others[|others| - 1], rounds, left)
  }

  lemma FirstShadow(p: Playlist, start: Iter, states: seq<Iter>, rounds: nat, left: int)
    requires Begun(p, start, states) && |states| == 1 && left == rounds - 1 > 0
    ensures exists others :: Shadows(p, start, states, others, rounds, left)
  {
    var start' := BoundedStart(start, rounds);
    RoundAlike(p, start, start', rounds, left);
    var others := [Step(p, start', 0, false).0];
    assert Visited(others) == Visited(states);
    assert Shadows(p, start, states, others, rounds, left);
  }

  /** One stop more, in both. */
  lemma NextShadow(p: Playlist, start: Iter, states: seq<Iter>, next: Iter, rounds: nat, left: int, more: int)
    requires more == left + 1 > 0 && exists others :: Shadows(p, start, states, others, rounds, more)
    requires |states| > 0 && Goes(p, states[|states| - 1], next)
    ensures exists others :: Shadows(p, start, states + [next], others, rounds, left)
  {
    var others :| Shadows(p, start, states, others, rounds, more);
    var other := others[|others| - 1];
    StepAlike(p, states[|states| - 1], other, rounds, more);
    var next' := Step(p, other, 1, false).0;
    RunMore(p, start, states, next);
    RunMore(p, BoundedStart(start, rounds), others, next');
    assert Shadows(p, start, states + [next], others + [next'], rounds, left);
  }

  /** The other walk makes the same run. */
  lemma {:induction false} RunAlike(p: Playlist, start: Iter, states: seq<Iter>, rounds: nat, left: int)
    requires Begun(p, start, states) && left == rounds - |states| > 0
    ensures exists others :: Shadows(p, start, states, others, rounds, left)
    decreases |states|
  {
    if |states| == 1 {
      FirstShadow(p, start, states, rounds, left);
    } else {
      var before, last := RunFront(p, start, states);
      RunAlike(p, start, before, rounds, left + 1);
      NextShadow(p, start, before, last, rounds, left, left + 1);
    }
  }

  /** Every run of forward steps, with endless loops anywhere: it has visited a prefix of the flattening with more
      rounds of each endless loop than the run has stops, and it is at the end exactly when that is used up. */
  lemma EndlessRuns(p: Playlist, start: Iter, states: seq<Iter>, rounds: nat) returns (next: Iter)
    requires Begun(p, start, states) && rounds > |states|
    ensures var flat := Flatten(p.shape, Bounded(start.loops, rounds), p.shape.root);
      && Visited(states) <= flat
      && (Goes(p, states[|states| - 1], next) <==> |states| < |flat|)
      && (Ends(p, states[|states| - 1], next) <==> |states| == |flat|)
  {
    RunAlike(p, start, states, rounds, rounds - |states|);
    var others :| Shadows(p, start, states, others, rounds, rounds - |states|);
    var last, last' := states[|states| - 1], others[|others| - 1];
    assert |others| == |Visited(others)| == |states|;
    var next' := RunsFlattenRoot(p, BoundedStart(start, rounds), others);
    StepAlike(p, last, last', rounds, rounds - |states|);
    next := Step(p, last, 1, false).0;
  }

  // ---------------------------------------------------------------- and never at the end

  lemma {:induction false} RepeatLong(a: seq<PlayTree>, n: nat)
    requires a != []
    ensures |Repeat(a, n)| >= n && (n > 0 ==> |Repeat(a, n)| >= |a|)
  {
    if n > 0 { RepeatLong(a, n - 1); }
  }

  /** No node of a cleaned list flattens to nothing, and a group flattens to as many entries at least as its rounds,
      and as one of them has. */
  lemma {:induction false} FlattenLong(s: Shape, loops: map<PlayTree, int>, n: PlayTree)
    requires ShapeOk(s) && Clean(s) && n in s.kids && loops.Keys == s.kids.Keys
    ensures Flatten(s, loops, n) != []
    ensures s.kids[n] != [] ==> |Flatten(s, loops, n)| >= loops[n]
    ensures s.kids[n] != [] ==> |Flatten(s, loops, n)| >= |FlattenFrom(s, loops, n, 0)|
    decreases Room(s, n)
  {
    if n !in s.entries {
      assert ChildOk(s, n, 0);
      FlattenLong(s, loops, s.kids[n][0]);
      var first, rest := Flatten(s, loops, s.kids[n][0]), FlattenFrom(s, loops, n, 1);
      assert FlattenFrom(s, loops, n, 0) == first + rest;
      RepeatLong(first + rest, Max(1, loops[n]));
    }
  }

  lemma {:induction false} FromLong(s: Shape, loops: map<PlayTree, int>, n: PlayTree, i: nat, j: nat)
    requires ShapeOk(s) && n in s.kids && loops.Keys == s.kids.Keys && i <= j < |s.kids[n]|
    ensures s.kids[n][j] in s.kids && |FlattenFrom(s, loops, n, i)| >= |Flatten(s, loops, s.kids[n][j])|
    decreases j - i
  {
    assert ChildOk(s, n, j) && ChildOk(s, n, i);
    if i < j { FromLong(s, loops, n, i + 1, j); }
  }

  lemma {:induction false} RootLongest(s: Shape, loops: map<PlayTree, int>, n: PlayTree)
    requires ShapeOk(s) && Clean(s) && n in s.kids && loops.Keys == s.kids.Keys
    ensures |Flatten(s, loops, s.root)| >= |Flatten(s, loops, n)|
    decreases s.depth[n]
  {
    if n != s.root {
      var q := s.up[n];
      assert UpOk(s, n) && ChildOk(s, q, s.pos[n]);
      FromLong(s, loops, q, 0, s.pos[n]);
      FlattenLong(s, loops, q);
      RootLongest(s, loops, q);
    }
  }

  /** With an endless group anywhere in the list, no run of forward steps is ever at the end. */
  lemma EndlessNeverEnds(p: Playlist, start: Iter, states: seq<Iter>, group: PlayTree) returns (next: Iter)
    requires Begun(p, start, states)
    requires group in p.shape.kids && p.shape.kids[group] != [] && start.loops[group] < 0
    ensures Goes(p, states[|states| - 1], next)
  {
    var rounds := |states| + 1;
    next := EndlessRuns(p, start, states, rounds);
    FlattenLong(p.shape, Bounded(start.loops, rounds), group);
    RootLongest(p.shape, Bounded(start.loops, rounds), group);
  }
}

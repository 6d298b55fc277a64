/** Where a step of any length in either direction stops, told by places among siblings. */
module IterSteps {
  import opened Util
  import opened ConfigModel
  import opened PlayTrees
  import opened IterModel
  import opened IterTheorems

  /** The entry that is come to by always taking the first child. */
  ghost function FirstEntry(s: Shape, n: PlayTree): PlayTree
    requires ShapeOk(s) && n in s.kids
    decreases Room(s, n)
  {
    if s.kids[n] == [] then n else assert ChildOk(s, n, 0); FirstEntry(s, s.kids[n][0])
  }

  /** The entry at which a group is entered in direction d: backward by its last child, and from there on forward. */
  ghost function Entered(s: Shape, n: PlayTree, d: int): PlayTree
    requires ShapeOk(s) && n in s.kids
  {
    var kids := s.kids[n];
    if kids == [] then n
    else if d < 0 then assert ChildOk(s, n, |kids| - 1); FirstEntry(s, kids[|kids| - 1])
    else FirstEntry(s, n)
  }

  /** The outcome is a stop at entry n, the tree's loops untouched. */
  ghost predicate StopsAt(r: (Iter, Status), n: PlayTree, it: Iter) {
    r.1 == ENTRY && r.0.tree == n && r.0.loops == it.loops
  }

  /** The counters are those of it, but for the one of the group at hand. */
  ghost predicate CountersAre(r: Iter, loop: int, it: Iter) {
    r.loop == loop && r.stack == it.stack
  }

  /** In a plain list a step of 0 arrives where it stands. */
  lemma HereIsArriving(p: Playlist, it: Iter)
    requires Ready(p, it) && InOrder(p)
    ensures Step(p, it, 0, false) == Arrive(p, Leave(p, it), it.tree, 0, false)
  {
    assert Step(p, it, 0, false) == StepInOrder(p, Leave(p, it), 0, false);
  }

  /** Arriving at a group arrives at its first child, or backward at its last one. */
  lemma GroupArrives(p: Playlist, it: Iter, pt: PlayTree, d: int) returns (c: Iter)
    requires Ready(p, it.(tree := pt)) && InOrder(p) && p.shape.kids[pt] != []
    ensures var kids := p.shape.kids[pt]; c.tree == kids[if d < 0 then |kids| - 1 else 0]
    ensures c == c.(tree := c.tree) && Ready(p, c) && c.loops == it.loops && Room(p.shape, c.tree) < Room(p.shape, pt)
    ensures Arrive(p, it, pt, d, false) == Arrive(p, c, c.tree, 0, false)
  {
    var at, kids := it.(tree := pt), p.shape.kids[pt];
    assert ChildOk(p.shape, pt, if d >= 0 then 0 else |kids| - 1);
    HereIsArriving(p, Within(p, at, d));
    c := Leave(p, Within(p, at, d));
  }

  lemma EnteredIs(s: Shape, n: PlayTree, d: int, c: PlayTree)
    requires ShapeOk(s) && n in s.kids && s.kids[n] != [] && c == s.kids[n][if d < 0 then |s.kids[n]| - 1 else 0]
    ensures c in s.kids && Entered(s, c, 0) == Entered(s, n, d)
  {
    assert ChildOk(s, n, if d < 0 then |s.kids[n]| - 1 else 0);
    assert Entered(s, c, 0) == FirstEntry(s, c);
  }

  /** In a plain list arriving at a node enters it in the direction of the step. */
  lemma {:induction false} ArrivesAt(p: Playlist, it: Iter, pt: PlayTree, d: int)
    requires Ready(p, it.(tree := pt)) && InOrder(p)
    ensures StopsAt(Arrive(p, it, pt, d, false), Entered(p.shape, pt, d), it)
    ensures p.shape.kids[pt] == [] ==> CountersAre(Arrive(p, it, pt, d, false).0, it.loop, it)
    decreases Room(p.shape, pt)
  {
    if p.shape.kids[pt] != [] {
      var c := GroupArrives(p, it, pt, d);
      EnteredIs(p.shape, pt, d, c.tree);
      ArrivesAt(p, c, c.tree, 0);
    }
  }

  /** A step of d, forward or backward, with that many siblings there: it stops at the sibling d places along, if that
      is an entry, and else at the entry at which it is entered in that direction. */
  lemma StepReachesSibling(p: Playlist, it: Iter, d: int, next: PlayTree)
    requires Ready(p, it) && InOrder(p) && 0 <= Pos(p.shape, it.tree) + d < |Siblings(p.shape, it.tree)|
    requires next == Siblings(p.shape, it.tree)[Pos(p.shape, it.tree) + d]
    ensures next in p.shape.kids && StopsAt(Step(p, it, d, false), Entered(p.shape, next, d), it)
    ensures p.shape.kids[next] == [] ==> CountersAre(Step(p, it, d, false).0, it.loop, it)
  {
    SiblingFacts(p.shape, it.tree, Pos(p.shape, it.tree) + d);
    assert Step(p, it, d, false) == StepInOrder(p, Leave(p, it), d, false);
    ArrivesAt(p, Leave(p, it), next, Sign(d));
  }

  // ---------------------------------------------------------------- off the end of the siblings

  /** A step of d leads past the first or the last of the siblings. */
  ghost predicate OffTheEnd(p: Playlist, it: Iter, d: int)
    requires Ready(p, it)
  {
    !(0 <= Pos(p.shape, it.tree) + d < |Siblings(p.shape, it.tree)|)
  }

  /** The group that the walk is in has another round in direction d: forward while its counter is not used up,
      backward while it has not come back to the loop. */
  ghost predicate AnotherRound(p: Playlist, it: Iter, d: int)
    requires Ready(p, it)
  {
    it.tree != p.shape.root && UpOk(p.shape, it.tree) &&
    var loop := it.loops[p.shape.up[it.tree]];
    loop != 0 && if d > 0 then it.loop != 0 else it.loop < 0 || it.loop < loop
  }

  /** How much of a step of d is left behind the last of n siblings, or before the first; at least one. */
  function Remainder(d: int, i: nat, n: nat): int {
    if d > 0 then (if i + d > n then i + d - n else 1) else (if i + d < -1 then i + d + 1 else -1)
  }

  lemma OffTheEndSteps(p: Playlist, it: Iter, d: int, rest: int)
    requires Ready(p, it) && InOrder(p) && OffTheEnd(p, it, d)
    requires rest == Remainder(d, Pos(p.shape, it.tree), |Siblings(p.shape, it.tree)|)
    ensures rest != 0 && Step(p, it, d, false) == StepOffTheEnd(p, Leave(p, it), rest, false)
    ensures LoopsAgain(p, Leave(p, it), rest) <==> AnotherRound(p, it, d)
  {
    assert Step(p, it, d, false) == StepInOrder(p, Leave(p, it), d, false);
    if it.tree != p.shape.root { assert UpOk(p.shape, it.tree); }
  }

  /** With another round, a step off the end stops forward at the first sibling, with a round less to go, and backward
      at the last one, with one round more; the rest of its length is forgotten. */
  lemma StepGoesRound(p: Playlist, it: Iter, d: int, next: PlayTree)
    requires Ready(p, it) && InOrder(p) && OffTheEnd(p, it, d) && AnotherRound(p, it, d)
    requires var all := Siblings(p.shape, it.tree); next == all[if d > 0 then 0 else |all| - 1]
    ensures next in p.shape.kids && StopsAt(Step(p, it, d, false), FirstEntry(p.shape, next), it)
    ensures p.shape.kids[next] == [] ==>
      CountersAre(Step(p, it, d, false).0, if it.loop < 0 then it.loop else if d > 0 then it.loop - 1
          else it.loop + 1, it)
  {
    var rest := Remainder(d, Pos(p.shape, it.tree), |Siblings(p.shape, it.tree)|);
    OffTheEndSteps(p, it, d, rest);
    var at := Rewound(p, Leave(p, it), rest, next);
    HereIsArriving(p, at);
    ArrivesAt(p, Leave(p, at), next, 0);
  }

  lemma Rewound(p: Playlist, it: Iter, d: int, next: PlayTree) returns (at: Iter)
    requires Ready(p, it) && LoopsAgain(p, it, d)
    requires var all := Siblings(p.shape, it.tree); next == all[if d > 0 then 0 else |all| - 1]
    ensures at == Rewind(p, it, d) && at == it.(tree := next, loop := at.loop) && next in p.shape.kids
    ensures at.loop == if it.loop < 0 then it.loop else if d > 0 then it.loop - 1 else it.loop + 1
  {
    SiblingFacts(p.shape, it.tree, if d > 0 then 0 else |Siblings(p.shape, it.tree)| - 1);
    assert UpOk(p.shape, it.tree);
    at := Rewind(p, it, d);
  }

  /** The walk has left the group at hand, and stands on it with the counter it had there. */
  ghost predicate Left(p: Playlist, it: Iter, at: Iter)
    requires Ready(p, it) && it.tree in p.shape.up
  {
    && Ready(p, at) && at.tree == p.shape.up[it.tree] && at.loops == it.loops
    && it.stack == at.stack + [at.loop]
  }

  /** Without, a step off the end goes on from the group itself with what is left of its length; at the top it is the
      end of the list. */
  lemma StepGoesUp(p: Playlist, it: Iter, d: int) returns (at: Iter)
    requires Ready(p, it) && InOrder(p) && OffTheEnd(p, it, d) && !AnotherRound(p, it, d)
    ensures it.tree == p.shape.root ==> Step(p, it, d, false).1 == END && Step(p, it, d, false).0.tree == it.tree
    ensures it.tree != p.shape.root ==> Left(p, it, at)
    ensures it.tree != p.shape.root ==>
      Step(p, it, d, false) == Step(p, at, Remainder(d, Pos(p.shape, it.tree), |Siblings(p.shape, it.tree)|), false)
  {
    var rest := Remainder(d, Pos(p.shape, it.tree), |Siblings(p.shape, it.tree)|);
    at := Leave(p, it);
    OffTheEndSteps(p, it, d, rest);
    assert Step(p, it, d, false) == Up(p, at, rest, false);
    if it.tree != p.shape.root {
      assert UpOk(p.shape, it.tree) && ChildOk(p.shape, p.shape.up[it.tree], p.shape.pos[it.tree]);
      at := Above(p, at);
    }
  }

  // ---------------------------------------------------------------- there and back

  /** Among entries a step and the same step back return to the same entry, whatever its length and direction. */
  lemma ThereAndBack(p: Playlist, it: Iter, d: int, next: PlayTree)
    requires Ready(p, it) && InOrder(p) && 0 <= Pos(p.shape, it.tree) + d < |Siblings(p.shape, it.tree)|
    requires next == Siblings(p.shape, it.tree)[Pos(p.shape, it.tree) + d]
    requires next in p.shape.kids && p.shape.kids[next] == p.shape.kids[it.tree] == []
    ensures var r := Step(p, Step(p, it, d, false).0, -d, false);
      StopsAt(r, it.tree, it) && CountersAre(r.0, it.loop, it)
  {
    SiblingFacts(p.shape, it.tree, Pos(p.shape, it.tree) + d);
    StepReachesSibling(p, it, d, next);
    StepReachesSibling(p, Step(p, it, d, false).0, -d, it.tree);
  }

  /** So they do over the end of a round, whatever rounds are left. */
  lemma RoundAndBack(p: Playlist, it: Iter, first: PlayTree)
    requires Ready(p, it) && InOrder(p) && OffTheEnd(p, it, 1) && AnotherRound(p, it, 1)
    requires first == Siblings(p.shape, it.tree)[0] && first in p.shape.kids
    requires p.shape.kids[first] == p.shape.kids[it.tree] == []
    requires it.loop < 0 || it.loop <= it.loops[p.shape.up[it.tree]]
    ensures var r := Step(p, Step(p, it, 1, false).0, -1, false);
      StopsAt(r, it.tree, it) && CountersAre(r.0, it.loop, it)
  {
    SiblingFacts(p.shape, it.tree, 0);
    StepGoesRound(p, it, 1, first);
    var r := Step(p, it, 1, false).0;
    StepGoesRound(p, r, -1, it.tree);
  }

  // ---------------------------------------------------------------- groups as stops, and moves up and down

  /** A step that stops at nodes stops at the sibling d places along, group or entry. */
  lemma StepStopsAtNode(p: Playlist, it: Iter, d: int, next: PlayTree)
    requires Ready(p, it) && InOrder(p) && 0 <= Pos(p.shape, it.tree) + d < |Siblings(p.shape, it.tree)|
    requires next == Siblings(p.shape, it.tree)[Pos(p.shape, it.tree) + d]
    ensures next in p.shape.kids
    ensures var (r, status) := Step(p, it, d, true);
      r.tree == next && CountersAre(r, it.loop, it) && status == if p.shape.kids[next] == [] then ENTRY else NODE
  {
    SiblingFacts(p.shape, it.tree, Pos(p.shape, it.tree) + d);
    assert Step(p, it, d, true) == StepInOrder(p, Leave(p, it), d, true);
    assert StepInOrder(p, Leave(p, it), d, true) == Arrive(p, Leave(p, it), next, Sign(d), true);
  }

  /** Moving up by hand is a step of d from the group at hand, whatever counters and siblings it has; at the top it is
      the end of the list. */
  lemma UpIsStepAbove(p: Playlist, it: Iter, d: int, withNodes: bool) returns (at: Iter)
    requires Ready(p, it)
    ensures it.tree == p.shape.root ==> Up(p, it, d, withNodes).1 == END && Up(p, it, d, withNodes).0.tree == it.tree
    ensures it.tree != p.shape.root ==> Left(p, it, at) && Up(p, it, d, withNodes) == Step(p, at, d, withNodes)
  {
    at := it;
    if it.tree != p.shape.root {
      assert UpOk(p.shape, it.tree) && ChildOk(p.shape, p.shape.up[it.tree], p.shape.pos[it.tree]);
      at := Above(p, it);
    }
  }

  /** Moving down by hand enters the group in the direction of d, one level deeper than it and with a round less than
      its loop to go. */
  lemma DownEnters(p: Playlist, it: Iter, d: int)
    requires Ready(p, it) && InOrder(p) && p.shape.kids[it.tree] != []
    ensures StopsAt(Down(p, it, d, false), Entered(p.shape, it.tree, d), it)
    ensures var kids := p.shape.kids[it.tree]; var c := kids[if d < 0 then |kids| - 1 else 0];
      c in p.shape.kids && (p.shape.kids[c] == [] ==>
        Down(p, it, d, false).0.loop == it.loops[it.tree] - 1 && Down(p, it, d, false).0.stack == it.stack + [it.loop])
  {
    var kids, at := p.shape.kids[it.tree], Within(p, it, d);
    assert ChildOk(p.shape, it.tree, if d >= 0 then 0 else |kids| - 1);
    HereIsArriving(p, at);
    ArrivesAt(p, Leave(p, at), at.tree, 0);
    EnteredIs(p.shape, it.tree, d, at.tree);
  }
}

/** Shuffled groups in trees of any kind: what they keep from being played, and when a walk ends. */
module IterMixed {
  import opened Util
  import opened ConfigModel
  import opened PlayTrees
  import opened IterModel
  import opened IterShuffle

  /** Node n lies below group h. */
  ghost predicate Under(s: Shape, h: PlayTree, n: PlayTree)
    requires ShapeOk(s) && n in s.kids
    decreases s.depth[n]
  {
    n != s.root && (assert UpOk(s, n) && ChildOk(s, s.up[n], s.pos[n]); s.up[n] == h || Under(s, h, s.up[n]))
  }

  lemma SiblingUnder(s: Shape, h: PlayTree, n: PlayTree, i: nat)
    requires ShapeOk(s) && n in s.kids && i < |Siblings(s, n)| && Under(s, h, n)
    ensures var m := Siblings(s, n)[i]; m in s.kids && Under(s, h, m) && m in s.up && s.up[m] == s.up[n]
  {
    SiblingFacts(s, n, i);
  }

  lemma ChildUnder(s: Shape, h: PlayTree, n: PlayTree, i: nat)
    requires ShapeOk(s) && n in s.kids && i < |s.kids[n]| && (n == h || Under(s, h, n))
    ensures s.kids[n][i] in s.kids && Under(s, h, s.kids[n][i])
  {
    assert ChildOk(s, n, i);
  }

  // ---------------------------------------------------------------- a walk does not leave a shuffled group

  /** The walk is below the shuffled group h. */
  ghost predicate Held(p: Playlist, it: Iter, h: PlayTree) {
    Ready(p, it) && h in p.shuffled && Under(p.shape, h, it.tree)
  }

  lemma {:induction false} StepHeld(p: Playlist, it: Iter, d: int, withNodes: bool, h: PlayTree)
    requires Held(p, it, h)
    ensures Held(p, Step(p, it, d, withNodes).0, h)
    decreases if d == 0 then 0 else p.shape.depth[it.tree] + 1, Room(p.shape, it.tree),
        if Exhausted(p, it) then 1 else 0, 4
  {
    var here := Leave(p, it);
    if here.rndMode { ShuffledHeld(p, here, d, withNodes, h); } else { InOrderHeld(p, here, d, withNodes, h); }
  }

  lemma {:induction false} ShuffledHeld(p: Playlist, it: Iter, d: int, withNodes: bool, h: PlayTree)
    requires Held(p, it, h) && it.rndMode == Shuffling(p, it.tree) == true
    ensures Held(p, StepShuffled(p, it, d, withNodes).0, h)
    decreases if d == 0 then 0 else p.shape.depth[it.tree] + 1, Room(p.shape, it.tree),
        if Exhausted(p, it) then 1 else 0, 3
  {
    if Exhausted(p, it) {
      if it.loops[p.shape.root] != 0 { StepHeld(p, Replay(p, it), 0, withNodes, h); }
    } else {
      var (pt, next) := Draw(p, it);
      SiblingUnder(p.shape, h, it.tree, IndexOf(Siblings(p.shape, it.tree), pt));
      ArriveHeld(p, next, pt, d, withNodes, h);
    }
  }

  lemma {:induction false} InOrderHeld(p: Playlist, it: Iter, d: int, withNodes: bool, h: PlayTree)
    requires Held(p, it, h) && !Shuffling(p, it.tree)
    ensures Held(p, StepInOrder(p, it, d, withNodes).0, h)
    decreases if d == 0 then 0 else p.shape.depth[it.tree] + 1, Room(p.shape, it.tree), 0, 3
  {
    var all, i := Siblings(p.shape, it.tree), Pos(p.shape, it.tree);
    if 0 <= i + d < |all| {
      SiblingFacts(p.shape, it.tree, i + d);
      SiblingUnder(p.shape, h, it.tree, i + d);
      ArriveHeld(p, it, all[i + d], Sign(d), withNodes, h);
    } else {
      OffTheEndHeld(p, it, Leftover(d, i, |all|), withNodes, h);
    }
  }

  /** Up it goes only from a group that is not shuffled, so h is still above. */
  lemma {:induction false} OffTheEndHeld(p: Playlist, it: Iter, d: int, withNodes: bool, h: PlayTree)
    requires Held(p, it, h) && !Shuffling(p, it.tree) && d != 0
    ensures Held(p, StepOffTheEnd(p, it, d, withNodes).0, h)
    decreases p.shape.depth[it.tree] + 1, Room(p.shape, it.tree), 0, 2
  {
    if LoopsAgain(p, it, d) {
      SiblingUnder(p.shape, h, it.tree, if d > 0 then 0 else |Siblings(p.shape, it.tree)| - 1);
      StepHeld(p, Rewind(p, it, d), 0, withNodes, h);
    } else {
      StepHeld(p, Above(p, it), d, withNodes, h);
    }
  }

  lemma {:induction false} ArriveHeld(p: Playlist, it: Iter, pt: PlayTree, d: int, withNodes: bool, h: PlayTree)
    requires Held(p, it.(tree := pt), h)
    ensures Held(p, Arrive(p, it, pt, d, withNodes).0, h)
    decreases 0, Room(p.shape, pt), 0, 2
  {
    var at, kids := it.(tree := pt), p.shape.kids[pt];
    if kids != [] && !withNodes {
      ChildUnder(p.shape, h, pt, if d >= 0 then 0 else |kids| - 1);
      StepHeld(p, Within(p, at, d), 0, withNodes, h);
    }
  }

  /** Where any steps lead. */
  ghost function Steps(p: Playlist, it: Iter, ds: seq<int>): (r: Iter)
    requires Ready(p, it)
    ensures Ready(p, r)
    decreases ds
  {
    if ds == [] then it else Steps(p, Step(p, it, ds[0], false).0, ds[1..])
  }

  /** Once a walk has entered a shuffled group, no steps in any direction ever lead out of it: what lies outside is
      not played any more. */
  lemma {:induction false} NeverLeavesShuffled(p: Playlist, it: Iter, ds: seq<int>, h: PlayTree)
    requires Held(p, it, h)
    ensures Under(p.shape, h, Steps(p, it, ds).tree)
    decreases ds
  {
    if ds != [] {
      StepHeld(p, it, ds[0], false, h);
      NeverLeavesShuffled(p, Step(p, it, ds[0], false).0, ds[1..], h);
    }
  }

  // ---------------------------------------------------------------- a group in a shuffled group

  /** The walk is below the shuffled group h, which holds no other shuffled group but the plain group g, not marked as
      played. */
  ghost predicate Mixed(p: Playlist, it: Iter, h: PlayTree, g: PlayTree) {
    && Held(p, it, h) && h in p.shape.kids && g in p.shape.kids[h] && g in p.shape.kids && p.shape.kids[g] != []
    && g !in it.played && forall n | n in p.shuffled && n in p.shape.kids :: !Under(p.shape, h, n)
  }

  /** A shuffled node of the walk is a child of h. */
  lemma ShufflingIn(p: Playlist, it: Iter, h: PlayTree, g: PlayTree)
    requires Mixed(p, it, h, g) && Shuffling(p, it.tree)
    ensures p.shape.up[it.tree] == h && g in Siblings(p.shape, it.tree) && !Exhausted(p, it)
  {
    assert UpOk(p.shape, it.tree);
    NoneUnplayed(Siblings(p.shape, it.tree), it.played);
  }

  /** A step goes on, and leaves g unmarked: only leaving a group from a shuffled one marks it. */
  ghost predicate GoesOn(p: Playlist, r: (Iter, Status), h: PlayTree, g: PlayTree) {
    r.1 != END && Mixed(p, r.0, h, g)
  }

  lemma {:induction false} StepGoesOn(p: Playlist, it: Iter, d: int, withNodes: bool, h: PlayTree, g: PlayTree)
    requires Mixed(p, it, h, g)
    ensures GoesOn(p, Step(p, it, d, withNodes), h, g)
    decreases if d == 0 then 0 else p.shape.depth[it.tree] + 1, Room(p.shape, it.tree), 4
  {
    var here := Leave(p, it);
    if here.rndMode {
      ShufflingIn(p, here, h, g);
      var (pt, next) := Draw(p, here);
      SiblingUnder(p.shape, h, it.tree, IndexOf(Siblings(p.shape, it.tree), pt));
      ArriveGoesOn(p, next, pt, d, withNodes, h, g);
    } else {
      InOrderGoesOn(p, here, d, withNodes, h, g);
    }
  }

  lemma {:induction false} InOrderGoesOn(p: Playlist, it: Iter, d: int, withNodes: bool, h: PlayTree, g: PlayTree)
    requires Mixed(p, it, h, g) && !it.rndMode && !Shuffling(p, it.tree)
    ensures GoesOn(p, StepInOrder(p, it, d, withNodes), h, g)
    decreases if d == 0 then 0 else p.shape.depth[it.tree] + 1, Room(p.shape, it.tree), 3
  {
    var all, i := Siblings(p.shape, it.tree), Pos(p.shape, it.tree);
    if 0 <= i + d < |all| {
      SiblingFacts(p.shape, it.tree, i + d);
      SiblingUnder(p.shape, h, it.tree, i + d);
      ArriveGoesOn(p, it, all[i + d], Sign(d), withNodes, h, g);
    } else {
      OffTheEndGoesOn(p, it, Leftover(d, i, |all|), withNodes, h, g);
    }
  }

  lemma {:induction false} OffTheEndGoesOn(p: Playlist, it: Iter, d: int, withNodes: bool, h: PlayTree, g: PlayTree)
    requires Mixed(p, it, h, g) && !it.rndMode && !Shuffling(p, it.tree) && d != 0
    ensures GoesOn(p, StepOffTheEnd(p, it, d, withNodes), h, g)
    decreases p.shape.depth[it.tree] + 1, Room(p.shape, it.tree), 2
  {
    if LoopsAgain(p, it, d) {
      SiblingUnder(p.shape, h, it.tree, if d > 0 then 0 else |Siblings(p.shape, it.tree)| - 1);
      StepGoesOn(p, Rewind(p, it, d), 0, withNodes, h, g);
    } else {
      StepGoesOn(p, Above(p, it), d, withNodes, h, g);
    }
  }

  lemma {:induction false} ArriveGoesOn(p: Playlist, it: Iter, pt: PlayTree, d: int, withNodes: bool, h: PlayTree,
      g: PlayTree)
    requires Mixed(p, it.(tree := pt), h, g)
    ensures GoesOn(p, Arrive(p, it, pt, d, withNodes), h, g)
    decreases 0, Room(p.shape, pt), 2
  {
    var at, kids := it.(tree := pt), p.shape.kids[pt];
    if kids != [] && !withNodes {
      ChildUnder(p.shape, h, pt, if d >= 0 then 0 else |kids| - 1);
      StepGoesOn(p, Within(p, at, d), 0, withNodes, h, g);
    }
  }

  /** Moving up by hand out of a shuffled group marks the group as played, if there is an option context: it then goes
      on from the group as any step does. */
  lemma UpMarksGroup(p: Playlist, it: Iter, d: int, q: PlayTree, next: PlayTree)
    requires Ready(p, it) && it.tree in p.shape.up && q == p.shape.up[it.tree] && q in p.shape.kids && it.rndMode
    requires !Shuffling(p, q) && 0 <= Pos(p.shape, q) + d < |Siblings(p.shape, q)|
    requires next == Siblings(p.shape, q)[Pos(p.shape, q) + d] && next in p.shape.kids && p.shape.kids[next] == []
    ensures var (r, status) := Up(p, it, d, false);
      status == ENTRY && r.tree == next && r.played == if it.cfg.Some? then it.played + {q} else it.played
  {
    var here := Leave(p, Above(p, it));
    SiblingFacts(p.shape, q, Pos(p.shape, q) + d);
    assert Up(p, it, d, false) == StepInOrder(p, here, d, false);
    assert StepInOrder(p, here, d, false) == Arrive(p, here, next, Sign(d), false);
  }

  // ---------------------------------------------------------------- when a shuffled list ends

  /** A list in which just the root is shuffled. */
  ghost predicate RootShuffled(p: Playlist, loops: map<PlayTree, int>) {
    PlaylistOk(p) && p.shuffled == {p.shape.root} && Entries(p) != [] && loops.Keys == p.shape.kids.Keys
  }

  /** Made by an iterator that is new, the steps ds are followed by one of d that is at the end. */
  ghost predicate EndsAfter(p: Playlist, loops: map<PlayTree, int>, c: Cfg, draws: seq<nat>, ds: seq<int>, d: int)
    requires RootShuffled(p, loops)
  {
    Step(p, Steps(p, Step(p, Start(p, loops, {}, Some(c), draws), 0, false).0, ds), d, false).1 == END
  }

  lemma FirstGoesOn(p: Playlist, loops: map<PlayTree, int>, c: Cfg, draws: seq<nat>, g: PlayTree)
    requires RootShuffled(p, loops) && g in Entries(p) && g in p.shape.kids && p.shape.kids[g] != []
    ensures GoesOn(p, Step(p, Start(p, loops, {}, Some(c), draws), 0, false), p.shape.root, g)
  {
    var here := Leave(p, Start(p, loops, {}, Some(c), draws));
    ChildUnder(p.shape, p.shape.root, p.shape.root, 0);
    StepGoesOn(p, Within(p, here, 0), 0, false, p.shape.root, g);
    assert StepInOrder(p, here, 0, false) == Arrive(p, here, here.tree, 0, false) == Down(p, here, 0, false);
  }

  lemma {:induction false} StepsGoOn(p: Playlist, it: Iter, ds: seq<int>, h: PlayTree, g: PlayTree)
    requires Mixed(p, it, h, g)
    ensures Mixed(p, Steps(p, it, ds), h, g)
    decreases ds
  {
    if ds != [] {
      StepGoesOn(p, it, ds[0], false, h, g);
      StepsGoOn(p, Step(p, it, ds[0], false).0, ds[1..], h, g);
    }
  }

  /** A walk over entries only runs out. */
  lemma {:induction false} RunsOut(p: Playlist, it: Iter) returns (ds: seq<int>)
    requires Playing(p, it) && it.loops[p.shape.root] >= 0
    ensures Step(p, Steps(p, it, ds), 1, false).1 == END
    decreases Left(p, it)
  {
    var r, status := ShuffledCountdown(p, it, 1);
    ds := [];
    LeftIsNatural(p, it);
    if Left(p, it) > 0 {
      var rest := RunsOut(p, r);
      ds := [1] + rest;
      assert ds[1..] == rest;
    }
  }

  /** With the root shuffled and played a finite number of times, a walk from creation on comes to an end, by some
      steps, if and only if no child of the root is a group; and else every step of every walk stops at an entry. */
  lemma ShuffledEndsIff(p: Playlist, loops: map<PlayTree, int>, c: Cfg, draws: seq<nat>)
    requires RootShuffled(p, loops) && loops[p.shape.root] >= 0
    ensures (exists ds, d :: EndsAfter(p, loops, c, draws, ds, d))
       <==> forall n | n in Entries(p) :: n in p.shape.kids && p.shape.kids[n] == []
  {
    if g :| g in Entries(p) && g in p.shape.kids && p.shape.kids[g] != [] {
      forall ds, d ensures !EndsAfter(p, loops, c, draws, ds, d) {
        FirstGoesOn(p, loops, c, draws, g);
        var first := Step(p, Start(p, loops, {}, Some(c), draws), 0, false).0;
        StepsGoOn(p, first, ds, p.shape.root, g);
        StepGoesOn(p, Steps(p, first, ds), d, false, p.shape.root, g);
      }
    } else {
      forall i | 0 <= i < |Entries(p)| ensures ChildOk(p.shape, p.shape.root, i) && p.shape.kids[Entries(p)[i]] == [] {
        assert Entries(p)[i] in Entries(p) && ChildOk(p.shape, p.shape.root, i);
      }
      var first := ShuffledStart(p, loops, c, draws);
      var ds := RunsOut(p, first);
      assert EndsAfter(p, loops, c, draws, ds, 1);
    }
  }
}

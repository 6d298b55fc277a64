/**
 The iterator of playtree.c as it is kept: a cursor into the linked tree, a stack of
 saved loop counters, and the option context it pushes and pops on the way.
 Every routine is proved against its function in IterModel.
 */
module PlayTreeIterator {
  import opened Util
  import opened ConfigModel
  import opened PlayTrees
  import opened IterModel
  import opened PlayTreeLists
  import opened PlayTreeNodes
  import opened PlayTreeCleanup
  import opened PlayTreePruned
  import opened IterFiles

  class PlayTreeIter {
    const root: PlayTree
    var config: Option<Cfg>
    var tree: PlayTree?
    var loop: int
    var file: int
    var numFiles: int
    var entryPushed: bool
    var rndMode: bool
    var statusStack: seq<int>
    var draws: seq<nat>          // what the random number generator will give
    ghost const list: Playlist
    ghost var loops: map<PlayTree, int>     // the nodes' loop fields
    ghost var played: set<PlayTree>         // the nodes marked as played

    constructor (pt: PlayTree, config: Option<Cfg>, draws: seq<nat>, ghost list: Playlist)
      ensures this.root == pt && this.config == config && this.draws == draws && this.list == list && tree == null
          && !entryPushed
      ensures statusStack == [] && !rndMode && file == numFiles == 0
      ensures loop == if pt.parent != null then pt.parent.loop else 0
      ensures loops == LoopsOf(list.shape) && played == PlayedOf(list.shape)
    {
      this.root, this.config, this.draws, this.list := pt, config, draws, list;
      tree, entryPushed, rndMode, statusStack, file, numFiles := null, false, false, [], 0, 0;
      loop := if pt.parent != null then pt.parent.loop else 0;
      loops, played := LoopsOf(list.shape), PlayedOf(list.shape);
    }

    ghost function Nodes(): set<PlayTree> {
      list.shape.kids.Keys
    }

    /** The tree in the heap is the playlist. */
    ghost predicate Faithful()
      reads Nodes()`child, Nodes()`parent, Nodes()`next, Nodes()`prev, Nodes()`entryType
      reads Nodes()`params, Nodes()`files, Nodes()`rnd
    {
      && PlaylistOk(list) && Linked(list.shape) && root == list.shape.root
      && forall n {:trigger n.params} {:trigger n.files} {:trigger n.rnd} | n in Nodes() ::
           n.params == list.params[n] && n.files == list.files[n] && (n.rnd <==> n in list.shuffled)
    }

    /** The counters and marks in the heap are loops and played. */
    ghost predicate Marked()
      reads `loops, `played, Nodes()`loop, Nodes()`played
    {
      && loops.Keys == Nodes() && played <= Nodes() && MarksAre(list.shape, played)
      && forall n {:trigger n.loop} | n in Nodes() :: n.loop == loops[n]
    }

    ghost function View(): Iter
      reads this
    {
      Iter(if tree == null then root else tree, loop, statusStack, entryPushed, rndMode, file, numFiles,
          loops, played, config, draws)
    }

    ghost function Levels(): nat
      reads `statusStack, `entryPushed
    {
      |statusStack| + if entryPushed then 1 else 0
    }

    /** The cursor stands in the tree, as deep as the stack of saved counters. */
    ghost predicate Placed()
      reads `tree, `statusStack
    {
      tree != null && tree in Nodes() && tree in list.shape.depth && |statusStack| == list.shape.depth[tree]
    }

    ghost predicate Valid(base: int)
      reads this, Nodes()`loop, Nodes()`played
    {
      Marked() && Placed() && ConfigOk(config, base + Levels(), base)
    }

    /** play_tree_iter_push_params */
    method PushParams(ghost lvl: int, ghost base: int)
      requires config.Some? && ConfigOk(config, lvl, base)
      requires tree != null && tree in list.params && tree.params == list.params[tree]
      modifies `entryPushed, `config
      ensures ConfigOk(config, lvl + 1, base) && config == Pushed(list, old(config), tree)
      ensures tree.child != null ==> entryPushed == old(entryPushed)
    {
      ghost var was := config.value;
      AliveUp(was, base, lvl);
      PushReady(was);
      // one level for every node, so that what is set while it plays goes with it
      config := Some(Push(config.value));
      if tree.params == None { return; }
      var params, n := tree.params.value, 0;
      while n < |params|
        invariant 0 <= n <= |params| && entryPushed == old(entryPushed)
        invariant config.Some? && ConfigModel.Valid(config.value) && Alive(config.value, config.value.lvl)
        invariant SetParams(config.value, params[n..]) == SetParams(Push(was), params)
      {
        SetParamsTurn(config.value, params, n);
        var (c, e) := ParseOption(config.value, params[n].name, params[n].value, true);
        config := Some(c);
        n := n + 1;
      }
      if tree.child == null { entryPushed := true; }
    }

    method PopParams(ghost lvl: int, ghost base: int)
      requires config.Some? && ConfigOk(config, lvl, base) && base < lvl
      modifies `config
      ensures ConfigOk(config, lvl - 1, base) && config == Popped(old(config))
    {
      PopReady(config.value, base);
      config := Some(Pop(config.value));
    }

    // ------------------------------------------------------------ the moves inside a step

    /** The first lines of a step. */
    method LeaveEntry(ghost base: int)
      requires Faithful() && tree != null && tree in Nodes()
      requires ConfigOk(config, base + Levels(), base)
      modifies `entryPushed, `config, `rndMode, `file
      ensures config == (if old(entryPushed) then Popped(old(config)) else old(config))
      ensures entryPushed == (old(entryPushed) && config.None?)
      ensures rndMode == Shuffling(list, tree) && file == -1
      ensures ConfigOk(config, base + Levels(), base)
    {
      if config.Some? && entryPushed {
        entryPushed := false;
        PopParams(base + |statusStack| + 1, base);
      }
      hide ShapeOk, PlaylistOk, Linked;
      rndMode := InShuffled();
      file := -1;
    }

    method InShuffled() returns (on: bool)
      requires Faithful() && tree != null && tree in Nodes()
      ensures on == Shuffling(list, tree)
    {
      assert NodeLinked(list.shape, tree) && (tree != root ==> UpOk(list.shape, tree));
      on := tree.parent != null && tree.parent.rnd;
    }

    /** In a shuffled list, what is played is marked. */
    method MarkPlayed()
      requires Marked() && tree != null && tree in Nodes()
      modifies `played, tree`played
      ensures Marked() && View() == old(View()).(played := if rndMode then old(played) + {tree} else old(played))
    {
      if rndMode {
        tree.played := true;
        played := played + {tree};
      }
    }

    /** Stops at the entry the cursor stands on. */
    method EnterEntry(ghost base: int)
      requires Marked() && tree != null && tree in Nodes() && tree in list.params && tree in list.files
      requires tree.files == list.files[tree] && tree.params == list.params[tree]
      requires ConfigOk(config, base + Levels(), base) && (config.Some? ==> !entryPushed)
      modifies `numFiles, `entryPushed, `config, `played, tree`played
      ensures Marked() && ConfigOk(config, base + Levels(), base)
      ensures View() == old(View()).(numFiles := |list.files[tree]|, cfg := Pushed(list, old(config), tree),
        pushed := old(entryPushed) || old(config).Some?,
        played := if old(config).Some? && rndMode then old(played) + {tree} else old(played))
    {
      numFiles := |tree.files|;
      if config.Some? {
        PushParams(base + |statusStack|, base);
        entryPushed := true;
        MarkPlayed();
      }
    }

    /** The cursor one level down, the loop counter saved. */
    method Descend(d: int)
      requires Linked(list.shape) && Marked() && tree != null && tree in Nodes() && list.shape.kids[tree] != []
      modifies `statusStack, `loop, `tree
      ensures Marked()
      ensures loops == old(loops) && var was, kids := old(View()), list.shape.kids[old(tree)];
        View() == was.(stack := was.stack + [was.loop], loop := was.loops[was.tree] - 1,
            tree := kids[if d >= 0 then 0 else |kids| - 1])
      ensures tree != null
    {
      assert NodeLinked(list.shape, tree) && ChildOk(list.shape, tree, 0);
      SiblingsChain(list.shape, tree.child);
      statusStack := statusStack + [loop];
      loop := tree.loop - 1;
      if d >= 0 {
        tree := tree.child;
      } else {
        tree := Last(tree.child, list.shape.kids[tree], tree);
      }
    }

    /** Pushes the parameters of the group the cursor is about to enter. */
    method EnterGroup(ghost base: int)
      requires Faithful() && Marked() && tree != null && tree in Nodes() && list.shape.kids[tree] != []
      requires ConfigOk(config, base + Levels(), base)
      modifies `file, `entryPushed, `config
      ensures Marked()
      ensures View() == old(View()).(file := -1, cfg := Pushed(list, old(config), tree))
      ensures ConfigOk(config, base + Levels() + 1, base)
    {
      assert NodeLinked(list.shape, tree);
      file := -1;
      if config.Some? { PushParams(base + Levels(), base); }
    }

    /** The cursor one level up, the loop counter restored. */
    method Ascend()
      requires ShapeOk(list.shape) && tree != null && tree in Nodes() && NodeLinked(list.shape, tree)
      requires tree != list.shape.root && |statusStack| == list.shape.depth[tree]
      modifies `file, `statusStack, `loop, `tree
      ensures UpOk(list.shape, old(tree)) && old(statusStack) != [] && tree != null
      ensures var was, top := old(View()), |old(statusStack)| - 1;
        View() == was.(file := -1, tree := list.shape.up[old(tree)], loop := was.stack[top], stack := was.stack[..top])
    {
      assert UpOk(list.shape, tree) && ChildOk(list.shape, list.shape.up[tree], list.shape.pos[tree]);
      file := -1;
      loop := statusStack[|statusStack| - 1];
      statusStack := statusStack[..|statusStack| - 1];
      tree := tree.parent;
    }

    /** Pops the parameters of the group the cursor has just left. */
    method LeaveGroup(ghost base: int)
      requires Marked() && tree != null && tree in Nodes() && ConfigOk(config, base + Levels() + 1, base)
      modifies `config, `played, tree`played
      ensures Marked() && ConfigOk(config, base + Levels(), base)
      ensures View() == old(View()).(cfg := Popped(old(config)),
        played := if old(config).Some? && rndMode then old(played) + {tree} else old(played))
    {
      if config.Some? {
        PopParams(base + Levels() + 1, base);
        MarkPlayed();
      }
    }

    /** The first sibling, or the last one. */
    method FarSibling(d: int) returns (pt: PlayTree)
      requires Faithful() && Placed() && d != 0
      ensures var all := Siblings(list.shape, tree); pt == all[if d > 0 then 0 else |all| - 1]
      ensures pt in Nodes() && pt in list.shape.depth && list.shape.depth[pt] == list.shape.depth[tree]
    {
      SiblingsChain(list.shape, tree);
      if d > 0 {
        pt := First(tree, Siblings(list.shape, tree), ParentOf(list.shape, tree));
      } else {
        pt := Last(tree, Siblings(list.shape, tree), ParentOf(list.shape, tree));
      }
      SiblingFacts(list.shape, tree, if d > 0 then 0 else |Siblings(list.shape, tree)| - 1);
    }

    /** One round of the group less, or, going backward, one more. */
    method CountRound(d: int)
      requires Faithful() && tree != null && tree in Nodes() && tree != root && Marked() && d != 0
      modifies `loop
      ensures UpOk(list.shape, tree)
      ensures loop == if d > 0 then (if old(loop) > 0 then old(loop) - 1 else old(loop))
                      else if 0 <= old(loop) < loops[list.shape.up[tree]] then old(loop) + 1 else old(loop)
    {
      assert NodeLinked(list.shape, tree) && UpOk(list.shape, tree);
      if d > 0 {
        if loop > 0 { loop := loop - 1; }
      } else {
        if loop >= 0 && loop < tree.parent.loop { loop := loop + 1; }
      }
    }

    /** Back to the first sibling, or on to the last one. */
    method StartRound(d: int)
      requires Faithful() && Placed() && Marked() && d != 0 && LoopsAgain(list, View(), d)
      modifies `loop, `tree
      ensures Placed() && list.shape.depth[tree] == list.shape.depth[old(tree)]
      ensures View() == Rewind(list, old(View()), d)
    {
      RewindIs(list, View(), d);
      TurnBack(d);
    }

    method TurnBack(d: int)
      requires Faithful() && Placed() && Marked() && d != 0 && tree != root && UpOk(list.shape, tree)
      modifies `loop, `tree
      ensures tree != null && tree in Nodes() && tree in list.shape.depth
      ensures list.shape.depth[tree] == list.shape.depth[old(tree)]
      ensures var was, all, loop := old(View()), Siblings(list.shape, old(tree)), old(loop);
        View() == was.(tree := all[if d > 0 then 0 else |all| - 1],
          loop := if d > 0 then (if loop > 0 then loop - 1 else loop)
                  else if 0 <= loop < was.loops[list.shape.up[was.tree]] then loop + 1 else loop)
    {
      var pt := FarSibling(d);
      CountRound(d);
      tree := pt;
    }

    /** play_tree_rnd_step, fed by the next number of the generator */
    method DrawNext() returns (pt: PlayTree?)
      requires Faithful() && Marked() && tree != null && Ready(list, View())
      modifies `draws
      ensures if Exhausted(list, old(View())) || !Shuffling(list, tree) then true
          else (pt, View()) == Draw(list, old(View()))
      ensures Shuffling(list, tree) ==> (pt == null <==> Exhausted(list, old(View())))
      ensures pt == null ==> draws == old(draws)
    {
      var number := if draws == [] then 0 else draws[0];
      pt := RndStep(tree, number, list.shape, played);
      if pt != null && draws != [] { draws := draws[1..]; }
    }

    /** Forgets what was played, for another round of a shuffled list. */
    method StartReplay()
      requires Faithful() && Marked()
      modifies `played, `loops, Nodes()`played, root`loop
      ensures Marked() && played == {}
      ensures loops == if old(loops)[root] > 0 then old(loops)[root := old(loops)[root] - 1] else old(loops)
    {
      UnsetPlayed(root, -1, list.shape);
      forall n | n in Nodes() ensures !n.played { RootReaches(list.shape, n); }
      played := {};
      if root.loop > 0 {
        root.loop := root.loop - 1;
        loops := loops[root := root.loop];
      }
    }

    method GoDown(d: int, ghost base: int)
      requires Faithful() && Valid(base) && (config.Some? ==> !entryPushed) && list.shape.kids[tree] != []
      modifies `file, `config, `entryPushed, `statusStack, `loop, `tree
      ensures Valid(base) && View() == Within(list, old(View()), d)
    {
      WithinIs(list, View(), d);
      MoveDown(d, base);
    }

    method MoveDown(d: int, ghost base: int)
      requires Faithful() && Valid(base) && (config.Some? ==> !entryPushed) && list.shape.kids[tree] != []
      modifies `file, `config, `entryPushed, `statusStack, `loop, `tree
      ensures Marked() && ConfigOk(config, base + Levels(), base)
      ensures var was, kids := old(View()), list.shape.kids[old(tree)];
        View() == was.(file := -1, cfg := Pushed(list, was.cfg, was.tree))
          .(stack := was.stack + [was.loop], loop := was.loops[was.tree] - 1,
              tree := kids[if d >= 0 then 0 else |kids| - 1])
      ensures tree != null
    {
      hide ShapeOk, PlaylistOk, Linked, Pushed, Alive, ConfigModel.Valid;
      EnterGroup(base);
      Descend(d);
    }

    method GoUp(ghost base: int)
      requires Faithful() && Valid(base) && tree != root
      modifies `config, `played, `statusStack, `loop, `tree, `file, Nodes()`played
      ensures Valid(base) && View() == Above(list, old(View()))
    {
      ghost var was := View();
      assert NodeLinked(list.shape, tree);
      Ascend();
      LeaveGroup(base);
      AboveIs(list, was);
    }

    /** Stops at pt, which is an entry. */
    method StopAt(pt: PlayTree, ghost base: int)
      requires Faithful() && Valid(base) && (config.Some? ==> !entryPushed)
      requires pt in Nodes() && list.shape.depth[pt] == list.shape.depth[tree]
      modifies `tree, `numFiles, `entryPushed, `config, `played, Nodes()`played
      ensures Valid(base) && View() == Enter(list, old(View()).(tree := pt))
    {
      assert pt in list.shape.depth && pt in list.params && pt in list.files;
      assert pt.files == list.files[pt] && pt.params == list.params[pt];
      EnterIs(list, View().(tree := pt));
      tree := pt;
      EnterEntry(base);
    }

    // ------------------------------------------------------------ the three routines

    /** play_tree_iter_step, from its second line on */
    method StepFrom(d: int, withNodes: bool, ghost base: int) returns (status: Status)
      requires Faithful() && Valid(base)
      modifies this, Nodes()`played, root`loop
      ensures Valid(base) && (View(), status) == IterModel.Step(list, old(View()), d, withNodes)
      decreases if d == 0 then 0 else list.shape.depth[tree] + 1, Room(list.shape, tree),
          if Exhausted(list, View()) then 1 else 0, 4
    {
      hide ShapeOk, PlaylistOk, Linked;
      ghost var was := View();
      LeaveEntry(base);
      assert View() == Leave(list, was);
      if rndMode {
        status := StepShuffledFrom(d, withNodes, base);
      } else {
        status := StepInOrderFrom(d, withNodes, base);
      }
    }

    method StepShuffledFrom(d: int, withNodes: bool, ghost base: int) returns (status: Status)
      requires Faithful() && Valid(base) && rndMode && Shuffling(list, tree) && (config.Some? ==> !entryPushed)
      modifies this, Nodes()`played, root`loop
      ensures Valid(base) && (View(), status) == StepShuffled(list, old(View()), d, withNodes)
      decreases if d == 0 then 0 else list.shape.depth[tree] + 1, Room(list.shape, tree),
          if Exhausted(list, View()) then 1 else 0, 3
    {
      hide ShapeOk, PlaylistOk, Linked;
      var pt := DrawNext();
      if pt == null {
        status := RoundOver(withNodes, base);
      } else {
        status := ArriveFrom(pt, d, withNodes, base);
      }
    }

    /** All are played: the end, or another round. */
    method RoundOver(withNodes: bool, ghost base: int) returns (status: Status)
      requires Faithful() && Valid(base) && Exhausted(list, View())
      modifies this, Nodes()`played, root`loop
      ensures Valid(base) && root in Nodes()
      ensures (View(), status) == if old(loops)[root] == 0 then (old(View()), END)
          else IterModel.Step(list, Replay(list, old(View())), 0, withNodes)
      decreases 0, Room(list.shape, tree), 1, 2
    {
      assert root in Nodes();
      if root.loop == 0 { return END; }
      status := ReplayFrom(withNodes, base);
    }

    method ReplayFrom(withNodes: bool, ghost base: int) returns (status: Status)
      requires Faithful() && Valid(base) && Exhausted(list, View())
      modifies this, Nodes()`played, root`loop
      ensures Valid(base) && (View(), status) == IterModel.Step(list, Replay(list, old(View())), 0, withNodes)
      decreases 0, Room(list.shape, tree), 1, 1
    {
      hide ShapeOk, PlaylistOk, Linked;
      ghost var was := View();
      StartReplay();
      assert View() == Replay(list, was);
      status := StepFrom(0, withNodes, base);
    }

    /** Moves d siblings along, without leaving the cursor's place yet. */
    method Move(d: int) returns (pt: PlayTree?, left: int)
      requires Faithful() && Placed()
      ensures var all, i := Siblings(list.shape, tree), Pos(list.shape, tree);
        if 0 <= i + d < |all| then pt == all[i + d] && left == Sign(d) else pt == null && left == Leftover(d, i, |all|)
      ensures pt != null ==> pt in Nodes() && pt in list.shape.depth && list.shape.depth[pt] == list.shape.depth[tree]
    {
      pt, left := Along(tree, d, list.shape);
      if pt != null { SiblingFacts(list.shape, tree, Pos(list.shape, tree) + d); }
    }

    method StepInOrderFrom(d: int, withNodes: bool, ghost base: int) returns (status: Status)
      requires Faithful() && Valid(base) && (config.Some? ==> !entryPushed)
      modifies this, Nodes()`played, root`loop
      ensures Valid(base) && (View(), status) == StepInOrder(list, old(View()), d, withNodes)
      decreases if d == 0 then 0 else list.shape.depth[tree] + 1, Room(list.shape, tree), 0, 3
    {
      hide ShapeOk, PlaylistOk, Linked;
      var pt, left := Move(d);
      if pt == null {
        status := StepOffTheEndFrom(left, withNodes, base);
      } else {
        status := ArriveFrom(pt, left, withNodes, base);
      }
    }

    /** Is there another round of the group? */
    method MustLoop(d: int) returns (again: bool)
      requires Faithful() && Marked() && tree != null && tree in Nodes()
      ensures again == LoopsAgain(list, View(), d)
    {
      assert NodeLinked(list.shape, tree) && (tree != root ==> UpOk(list.shape, tree));
      again := tree.parent != null && tree.parent.loop != 0
            && ((d > 0 && loop != 0) || (d < 0 && (loop < 0 || loop < tree.parent.loop)));
    }

    method StepOffTheEndFrom(d: int, withNodes: bool, ghost base: int) returns (status: Status)
      requires Faithful() && Valid(base) && (config.Some? ==> !entryPushed) && d != 0
      modifies this, Nodes()`played, root`loop
      ensures Valid(base) && (View(), status) == StepOffTheEnd(list, old(View()), d, withNodes)
      decreases list.shape.depth[tree] + 1, Room(list.shape, tree), 0, 2
    {
      hide ShapeOk, PlaylistOk, Linked;
      ghost var was := View();
      var again := MustLoop(d);
      if again {
        StartRound(d);
        status := StepFrom(0, withNodes, base);
      } else {
        status := UpStep(d, withNodes, base);
      }
    }

    /** The second half of a step, with pt chosen. */
    method ArriveFrom(pt: PlayTree, d: int, withNodes: bool, ghost base: int) returns (status: Status)
      requires Faithful() && Valid(base) && (config.Some? ==> !entryPushed)
      requires pt in Nodes() && list.shape.depth[pt] == list.shape.depth[tree]
      modifies this, Nodes()`played, root`loop
      ensures Valid(base) && (View(), status) == Arrive(list, old(View()), pt, d, withNodes)
      decreases 0, Room(list.shape, pt), 0, 2
    {
      assert Linked(list.shape) && Clean(list.shape) && pt in list.shape.depth;
      var follow := CanFollow(pt, list.shape);
      if follow {
        status := FollowInto(pt, d, withNodes, base);
      } else {
        StopAt(pt, base);
        status := ENTRY;
      }
    }

    /** Stops at the group pt, or goes on into it. */
    method FollowInto(pt: PlayTree, d: int, withNodes: bool, ghost base: int) returns (status: Status)
      requires Faithful() && Valid(base) && (config.Some? ==> !entryPushed) && pt in Nodes()
          && list.shape.kids[pt] != []
      requires pt in list.shape.depth && list.shape.depth[pt] == list.shape.depth[tree]
      modifies this, Nodes()`played, root`loop
      ensures Valid(base)
      ensures var at := old(View()).(tree := pt);
        (View(), status) == if withNodes then (at, NODE) else Down(list, at, d, withNodes)
      decreases 0, Room(list.shape, pt), 0, 1
    {
      hide ShapeOk, PlaylistOk, Linked;
      tree := pt;
      if withNodes { return NODE; }
      status := DownStep(d, withNodes, base);
    }

    method DownStep(d: int, withNodes: bool, ghost base: int) returns (status: Status)
      requires Faithful() && Valid(base) && (config.Some? ==> !entryPushed) && list.shape.kids[tree] != []
      modifies this, Nodes()`played, root`loop
      ensures Valid(base) && (View(), status) == Down(list, old(View()), d, withNodes)
      decreases 0, Room(list.shape, tree), 0, 0
    {
      hide ShapeOk, PlaylistOk, Linked;
      GoDown(d, base);
      status := StepFrom(0, withNodes, base);
    }

    method AtTop() returns (top: bool)
      requires Faithful() && tree != null && tree in Nodes()
      ensures top <==> tree == root
    {
      assert NodeLinked(list.shape, tree) && NodeLinked(list.shape, root);
      top := tree.parent == root.parent;
    }

    method UpStep(d: int, withNodes: bool, ghost base: int) returns (status: Status)
      requires Faithful() && Valid(base)
      modifies this, Nodes()`played, root`loop
      ensures Valid(base) && (View(), status) == Up(list, old(View()), d, withNodes)
      decreases list.shape.depth[tree], list.shape.bound + 1, 0, 0
    {
      hide ShapeOk, PlaylistOk, Linked;
      var top := AtTop();
      if top {
        file := -1;
        return END;
      }
      GoUp(base);
      status := StepFrom(d, withNodes, base);
    }

    /** The iterator walks the playlist p and is in the state it. */
    ghost predicate Walks(p: Playlist, it: Iter, base: int)
      reads this, Nodes()
    {
      Faithful() && Valid(base) && list == p && View() == it
    }

    // ------------------------------------------------------------ what the player calls

    /** The iterator has just been made. */
    ghost predicate New(base: int)
      reads this, Nodes()`loop, Nodes()`played
    {
      Marked() && tree == null && root == list.shape.root && statusStack == []
          && ConfigOk(config, base + Levels(), base)
    }

    /** play_tree_iter_step */
    method Step(d: int, withNodes: bool, ghost base: int) returns (status: Status)
      requires Faithful() && (New(base) || Valid(base))
      modifies this, Nodes()`played, root`loop
      ensures Valid(base) && Ready(list, old(View()))
      ensures (View(), status) == IterModel.Step(list, old(View()), if old(tree) == null then 0 else d, withNodes)
    {
      if tree == null {
        tree := root;
        status := StepFrom(0, withNodes, base);
      } else {
        status := StepFrom(d, withNodes, base);
      }
    }

    /** play_tree_iter_get_file */
    method GetFile(d: int, ghost base: int) returns (name: Option<string>)
      requires Faithful() && Valid(base) && CursorOk(list, View()) && Askable(list, View(), d)
      modifies `file
      ensures Valid(base) && (View(), name) == IterFiles.GetFile(list, old(View()), d)
    {
      assert tree.files == list.files[tree];
      if tree.files == [] { return None; }
      if file >= numFiles - 1 || file < -1 { return None; }
      if d > 0 {
        file := file + 1;
      } else if d < 0 {
        if file <= 0 { file := numFiles - 1; } else { file := file - 1; }
      }
      name := Some(tree.files[file]);
    }

    /** pt_iter_get_file */
    method NextFile(d: int, ghost base: int) returns (name: Option<string>)
      requires Faithful() && FilesOk(list) && Valid(base) && CursorOk(list, View()) && Askable(list, View(), d)
      modifies this, Nodes()`played, root`loop
      ensures Valid(base) && (View(), name) == IterFiles.NextFile(list, old(View()), d)
    {
      hide ShapeOk, PlaylistOk, Linked;
      ghost var was := View();
      name := GetFile(d, base);
      while name == None && d != 0
        invariant Valid(base)
        invariant name == None ==> (View(), None) == IterFiles.GetFile(list, was, d)
        invariant name != None ==> (View(), name) == IterFiles.NextFile(list, was, d)
        decreases name == None
      {
        var status;
        status, name := NextEntryFile(d, base);
        if status != ENTRY { return; }
      }
    }

    /** One turn of its loop. */
    method NextEntryFile(d: int, ghost base: int) returns (status: Status, name: Option<string>)
      requires Faithful() && FilesOk(list) && Valid(base) && d != 0
      modifies this, Nodes()`played, root`loop
      ensures Valid(base) && (View(), name) == IterFiles.NextEntryFile(list, old(View()), d)
      ensures name == None <==> status != ENTRY
    {
      StepAtEntry(list, View(), d);
      name := None;
      status := StepFrom(d, false, base);
      if status == ENTRY { name := GetFile(d, base); }
    }
  }

  /** Is there any valid child?  If not, pt is a valid entry: the error case that follows is dead. */
  method CanFollow(pt: PlayTree, ghost s: Shape) returns (follow: bool)
    requires Linked(s) && Clean(s) && pt in s.kids
    ensures follow <==> s.kids[pt] != []
  {
    assert NodeLinked(s, pt);
    follow := false;
    if pt.child != null {
      assert ChildOk(s, pt, 0);
      follow := IsPlayable(pt.child, s);
    }
    if !follow {
      var valid := IsPlayable(pt, s);
      if !valid { assert false; }
    }
  }

  /** play_tree_is_valid; on a cleaned tree every node is. */
  method IsPlayable(pt: PlayTree, ghost s: Shape) returns (valid: bool)
    requires Linked(s) && Clean(s) && pt in s.kids
    ensures valid
  {
    LinkedLists(s);
    CleanHasFile(s, pt);
    valid := IsValid(pt, s, s.kids);
  }

  // ---------------------------------------------------------------- making an iterator

  /** What the nodes of a shape carry. */
  ghost function ListOf(t: Shape): Playlist
    reads t.kids.Keys`params, t.kids.Keys`files, t.kids.Keys`rnd
  {
    Playlist(t, map n | n in t.kids :: n.params, map n | n in t.kids :: n.files, set n | n in t.kids && n.rnd)
  }

  ghost function LoopsOf(t: Shape): map<PlayTree, int>
    reads t.kids.Keys`loop
  {
    map n | n in t.kids :: n.loop
  }

  ghost function PlayedOf(t: Shape): set<PlayTree>
    reads t.kids.Keys`played
  {
    set n | n in t.kids && n.played
  }

  /** play_tree_cleanup on a whole tree */
  method CleanTree(pt: PlayTree, ghost s: Shape) returns (r: PlayTree?)
    requires Linked(s) && pt == s.root
    modifies s.kids.Keys`parent, s.kids.Keys`prev, s.kids.Keys`next, s.kids.Keys`child
    ensures r == if HasFile(s, pt) then pt else null
    ensures r != null ==> Linked(Pruned(s)) && Clean(Pruned(s))
  {
    LinkedLists(s);
    ghost var lists;
    r, lists := Cleanup(pt, 0, s, s.kids);
    if r != null { CleanedIsPruned(s, lists); }
  }

  /** The playlist and the first state that the nodes of t make. */
  ghost predicate Begins(t: Shape, config: Option<Cfg>, draws: seq<nat>, list: Playlist, start: Iter)
    reads t.kids.Keys`params, t.kids.Keys`files, t.kids.Keys`rnd, t.kids.Keys`loop, t.kids.Keys`played
  {
    list == ListOf(t) && start == Start(list, LoopsOf(t), PlayedOf(t), config, draws)
  }

  method MakeIter(pt: PlayTree, config: Option<Cfg>, draws: seq<nat>, ghost t: Shape, ghost base: int,
      ghost list: Playlist, ghost start: Iter)
    returns (iter: PlayTreeIter)
    requires Linked(t) && Clean(t) && pt == t.root && ConfigOk(config, base, base)
        && Begins(t, config, draws, list, start)
    ensures fresh(iter) && iter.Faithful() && iter.New(base)
    ensures list.shape == t && iter.root == pt && iter.list == list && iter.View() == start && iter.tree == null
  {
    assert NodeLinked(t, pt);
    iter := new PlayTreeIter(pt, config, draws, list);
  }

  /** play_tree_iter_new */
  method NewIter(pt: PlayTree, config: Option<Cfg>, draws: seq<nat>, ghost t: Shape, ghost base: int,
      ghost list: Playlist, ghost start: Iter)
    returns (iter: PlayTreeIter?)
    requires Linked(t) && Clean(t) && pt == t.root && ConfigOk(config, base, base)
        && Begins(t, config, draws, list, start)
    ensures iter != null && fresh(iter) && iter.Faithful() && iter.New(base)
    ensures list.shape == t && iter.root == pt && iter.list == list && iter.View() == start && iter.tree == null
  {
    iter := null;
    var valid := IsPlayable(pt, t);
    if valid { iter := MakeIter(pt, config, draws, t, base, list, start); }
  }

  /** The rest of pt_iter_create: on a cleaned tree, an iterator that stands at its first entry. */
  method CreateOn(pt: PlayTree, config: Option<Cfg>, draws: seq<nat>, ghost t: Shape, ghost base: int,
      ghost list: Playlist, ghost start: Iter)
    returns (iter: PlayTreeIter?)
    requires Linked(t) && Clean(t) && pt == t.root && ConfigOk(config, base, base)
    requires Begins(t, config, draws, list, start)
    modifies t.kids.Keys`played, pt`loop
    ensures Ready(list, start) && (iter != null <==> Step(list, start, 0, false).1 == ENTRY)
    ensures iter != null ==> fresh(iter) && iter.Walks(list, Step(list, start, 0, false).0, base)
  {
    hide ShapeOk, PlaylistOk, Linked, Alive, ConfigModel.Valid, IterModel.Step, Start;
    iter := NewIter(pt, config, draws, t, base, list, start);
    var status := iter.Step(0, false, base);
    if status != ENTRY { iter := null; }
  }

  /** pt_iter_create: cleans the tree, and stops at its first entry. */
  method Create(pt: PlayTree, config: Option<Cfg>, draws: seq<nat>, ghost s: Shape, ghost base: int)
    returns (iter: PlayTreeIter?, ghost list: Playlist, ghost start: Iter)
    requires Linked(s) && pt == s.root && ConfigOk(config, base, base)
    modifies s.kids.Keys
    ensures list == old(ListOf(Pruned(s)))
    ensures start == Start(list, old(LoopsOf(Pruned(s))), old(PlayedOf(Pruned(s))), config, draws)
    ensures HasFile(s, pt) ==> Ready(list, start)
    ensures iter != null <==> HasFile(s, pt) && Step(list, start, 0, false).1 == ENTRY
    ensures iter != null ==> fresh(iter) && iter.Walks(list, Step(list, start, 0, false).0, base)
  {
    ghost var t := Pruned(s);
    list, start := ListOf(t), Start(ListOf(t), LoopsOf(t), PlayedOf(t), config, draws);
    iter := null;
    assert Begins(t, config, draws, list, start) && t.kids.Keys <= s.kids.Keys;
    var r := CleanTree(pt, s);
    hide ShapeOk, PlaylistOk, Linked, Alive, ConfigModel.Valid, IterModel.Step, ListOf, LoopsOf, PlayedOf, HasFile;
    if r != null {
      iter := CreateOn(r, config, draws, t, base, list, start);
    }
  }

  lemma WithinIs(p: Playlist, it: Iter, d: int)
    requires Ready(p, it) && p.shape.kids[it.tree] != []
    ensures var kids := p.shape.kids[it.tree];
      Within(p, it, d) == it.(file := -1, cfg := Pushed(p, it.cfg, it.tree))
        .(stack := it.stack + [it.loop], loop := it.loops[it.tree] - 1, tree := kids[if d >= 0 then 0 else |kids| - 1])
    ensures Ready(p, Within(p, it, d)) && Within(p, it, d).tree in p.shape.depth
  {
  }

  lemma RewindIs(p: Playlist, it: Iter, d: int)
    requires Ready(p, it) && LoopsAgain(p, it, d)
    ensures it.tree != p.shape.root && UpOk(p.shape, it.tree)
    ensures var all, loop := Siblings(p.shape, it.tree), it.loop;
      Rewind(p, it, d) == it.(tree := all[if d > 0 then 0 else |all| - 1],
        loop := if d > 0 then (if loop > 0 then loop - 1 else loop)
                else if 0 <= loop < it.loops[p.shape.up[it.tree]] then loop + 1 else loop)
  {
    assert UpOk(p.shape, it.tree);
  }

  lemma EnterIs(p: Playlist, it: Iter)
    requires Ready(p, it)
    ensures Enter(p, it) == it.(numFiles := |p.files[it.tree]|, cfg := Pushed(p, it.cfg, it.tree),
      pushed := it.pushed || it.cfg.Some?,
      played := if it.cfg.Some? && it.rndMode then it.played + {it.tree} else it.played)
  {
  }

  lemma AboveIs(p: Playlist, it: Iter)
    requires Ready(p, it) && it.tree != p.shape.root && it.stack != [] && UpOk(p.shape, it.tree)
    ensures var top, up := |it.stack| - 1, p.shape.up[it.tree];
      Above(p, it) == it.(file := -1, tree := up, loop := it.stack[top], stack := it.stack[..top])
        .(cfg := Popped(it.cfg), played := if it.cfg.Some? && it.rndMode then it.played + {up} else it.played)
    ensures Ready(p, Above(p, it))
  {
  }

  lemma PopReady(c: Cfg, base: int)
    requires ConfigModel.Valid(c) && 1 <= base < c.lvl && Alive(c, base)
    ensures ConfigModel.Valid(Pop(c)) && Alive(Pop(c), base) && Pop(c).lvl == c.lvl - 1
  {
    PopValid(c);
    PopAlive(c, base);
  }

  /** The option context is lvl levels deep, base of them below the iterator's own. */
  ghost predicate ConfigOk(c: Option<Cfg>, lvl: int, base: int) {
    c.Some? ==> 1 <= base <= lvl == c.value.lvl && ConfigModel.Valid(c.value) && Alive(c.value, base)
  }

  lemma SetParamsTurn(c: Cfg, params: seq<Param>, n: nat)
    requires n < |params| && ConfigModel.Valid(c) && Alive(c, c.lvl)
    ensures var c' := Set(c, params[n].name, params[n].value);
      && ConfigModel.Valid(c') && Alive(c', c'.lvl)
      && SetParams(c', params[n + 1..]) == SetParams(c, params[n..])
  {
    SetValid(c, params[n].name, params[n].value);
    assert params[n..][1..] == params[n + 1..];
  }
}

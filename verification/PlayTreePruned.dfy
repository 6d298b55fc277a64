/** The tree that play_tree_cleanup leaves, and why nothing playable is lost. */
module PlayTreePruned {
  import opened Util
  import opened PlayTrees
  import opened PlayTreeLists
  import opened PlayTreeCleanup
  import opened PlayTreeNodes
  import opened IterTheorems

  ghost function Place(s: Shape, n: PlayTree): nat
    requires ShapeOk(s) && n in s.up
  {
    assert UpOk(s, n);
    |Kept(s, s.kids[s.up[n]][..s.pos[n]])|
  }

  /** The nodes that hold a file, each with those of its children that do. */
  ghost function Pruned(s: Shape): Shape
    requires ShapeOk(s)
  {
    Shape(s.root,
      map n | n in s.kids && Worth(s, n) :: Kept(s, s.kids[n]),
      map n | n in s.up && Worth(s, n) :: s.up[n],
      map n | n in s.up && Worth(s, n) :: Place(s, n),
      map n | n in s.depth && Worth(s, n) :: s.depth[n],
      s.bound, s.entries)
  }

  /** A kept node is found, among the kept ones, after those kept before it. */
  lemma {:induction false} KeptPlace(s: Shape, nodes: seq<PlayTree>, j: nat)
    requires ShapeOk(s) && j < |nodes| && Worth(s, nodes[j])
    ensures var i := |Kept(s, nodes[..j])|; i < |Kept(s, nodes)| && Kept(s, nodes)[i] == nodes[j]
  {
    KeptConcat(s, nodes[..j], nodes[j..]);
    assert nodes == nodes[..j] + nodes[j..];
    KeptFrom(s, nodes, j);
  }

  lemma {:induction false} KeptHasPlace(s: Shape, nodes: seq<PlayTree>, i: nat) returns (j: nat)
    requires ShapeOk(s) && i < |Kept(s, nodes)|
    ensures j < |nodes| && nodes[j] == Kept(s, nodes)[i] && |Kept(s, nodes[..j])| == i && Worth(s, nodes[j])
    decreases nodes
  {
    if Worth(s, nodes[0]) && i == 0 {
      j := 0;
    } else {
      var k := KeptHasPlace(s, nodes[1..], if Worth(s, nodes[0]) then i - 1 else i);
      j := k + 1;
      assert nodes[..j][0] == nodes[0] && nodes[..j][1..] == nodes[1..][..k];
    }
  }

  lemma PrunedChild(s: Shape, p: PlayTree, i: nat)
    requires ShapeOk(s) && p in s.kids && Worth(s, p) && i < |Kept(s, s.kids[p])|
    ensures var t := Pruned(s); p in t.kids && p in t.depth && i < |t.kids[p]| && ChildOk(t, p, i)
  {
    var j := KeptHasPlace(s, s.kids[p], i);
    assert ChildOk(s, p, j);
  }

  lemma WorthUp(s: Shape, n: PlayTree)
    requires ShapeOk(s) && n in s.up && Worth(s, n)
    ensures s.up[n] in s.kids && Worth(s, s.up[n])
  {
    assert UpOk(s, n) && ChildOk(s, s.up[n], s.pos[n]);
  }

  lemma PrunedUp(s: Shape, n: PlayTree)
    requires ShapeOk(s) && n in s.up && Worth(s, n)
    ensures n in Pruned(s).up && n in Pruned(s).pos && UpOk(Pruned(s), n)
  {
    assert UpOk(s, n);
    WorthUp(s, n);
    KeptPlace(s, s.kids[s.up[n]], s.pos[n]);
  }

  /** What is left is a tree without a childless group. */
  lemma PrunedOk(s: Shape)
    requires ShapeOk(s) && HasFile(s, s.root)
    ensures ShapeOk(Pruned(s)) && Clean(Pruned(s))
  {
    var t := Pruned(s);
    forall p, i | p in t.kids && 0 <= i < |t.kids[p]| ensures ChildOk(t, p, i) { PrunedChild(s, p, i); }
    forall c | c in t.up ensures UpOk(t, c) { PrunedUp(s, c); }
    forall n | n in t.kids ensures n in t.entries || t.kids[n] != [] { HasFileIff(s, n); }
    forall e | e in t.entries ensures e in t.kids && t.kids[e] == [] { assert Worth(s, e); }
  }

  // ---------------------------------------------------------------- nothing playable is lost

  /** The flattenings of some nodes, one after the other. */
  ghost function FlatList(s: Shape, loops: map<PlayTree, int>, nodes: seq<PlayTree>): seq<PlayTree>
    requires ShapeOk(s) && loops.Keys == s.kids.Keys
  {
    if nodes == [] then []
    else (if nodes[0] in s.kids then Flatten(s, loops, nodes[0]) else []) + FlatList(s, loops, nodes[1..])
  }

  lemma {:induction false} FlattenFromList(s: Shape, loops: map<PlayTree, int>, n: PlayTree, i: nat)
    requires ShapeOk(s) && loops.Keys == s.kids.Keys && n in s.kids && i <= |s.kids[n]|
    ensures FlattenFrom(s, loops, n, i) == FlatList(s, loops, s.kids[n][i..])
    decreases |s.kids[n]| - i
  {
    if i < |s.kids[n]| {
      assert ChildOk(s, n, i);
      FlattenFromList(s, loops, n, i + 1);
      assert s.kids[n][i..][1..] == s.kids[n][i + 1..];
    }
  }

  lemma {:induction false} RepeatNothing(n: nat)
    ensures Repeat([], n) == []
  {
    if n > 0 { RepeatNothing(n - 1); }
  }

  ghost function Remaining(s: Shape, loops: map<PlayTree, int>): map<PlayTree, int>
    requires ShapeOk(s) && loops.Keys == s.kids.Keys
  {
    map n | n in s.kids && Worth(s, n) :: loops[n]
  }

  /** Flattening the pruned tree gives what flattening the whole tree gave; nodes that hold no file give nothing. */
  lemma {:induction false} PrunedFlattens(s: Shape, loops: map<PlayTree, int>, n: PlayTree)
    requires ShapeOk(s) && HasFile(s, s.root) && loops.Keys == s.kids.Keys && n in s.kids
    ensures ShapeOk(Pruned(s)) && Remaining(s, loops).Keys == Pruned(s).kids.Keys
    ensures Flatten(s, loops, n) == if Worth(s, n) then Flatten(Pruned(s), Remaining(s, loops), n) else []
    decreases Room(s, n), 1, 0
  {
    PrunedOk(s);
    var t, rest := Pruned(s), Remaining(s, loops);
    HasFileIff(s, n);
    if n !in s.entries {
      FlattenFromList(s, loops, n, 0);
      assert s.kids[n][0..] == s.kids[n];
      PrunedListFlattens(s, loops, n, s.kids[n]);
      if Worth(s, n) {
        FlattenFromList(t, rest, n, 0);
        assert t.kids[n][0..] == t.kids[n];
      } else {
        RepeatNothing(Max(1, loops[n]));
      }
    }
  }

  lemma {:induction false} PrunedListFlattens(s: Shape, loops: map<PlayTree, int>, n: PlayTree, nodes: seq<PlayTree>)
    requires ShapeOk(s) && HasFile(s, s.root) && loops.Keys == s.kids.Keys && n in s.kids
        && forall c <- nodes :: c in s.kids[n]
    ensures ShapeOk(Pruned(s)) && Remaining(s, loops).Keys == Pruned(s).kids.Keys
    ensures FlatList(s, loops, nodes) == FlatList(Pruned(s), Remaining(s, loops), Kept(s, nodes))
    decreases Room(s, n), 0, |nodes|
  {
    PrunedOk(s);
    if nodes != [] {
      KidOf(s, n, nodes[0]);
      assert forall c <- nodes[1..] :: c in nodes;
      PrunedFlattens(s, loops, nodes[0]);
      PrunedListFlattens(s, loops, n, nodes[1..]);
      assert !Worth(s, nodes[0]) ==> Kept(s, nodes) == Kept(s, nodes[1..]);
      assert Worth(s, nodes[0]) ==>
        nodes[0] in Pruned(s).kids && Kept(s, nodes)[0] == nodes[0] && Kept(s, nodes)[1..] == Kept(s, nodes[1..]);
    }
  }

  // ---------------------------------------------------------------- the tree in the heap

  /** The linked tree of a shape, seen as lists of children. */
  lemma LinkedLists(s: Shape)
    requires Linked(s)
    ensures Partly(s, s.kids)
  {
    forall q | q in s.kids ensures Listed(s, s.kids, q) {
      assert NodeLinked(s, q);
      var list := s.kids[q];
      forall i | 0 <= i < |list| ensures InList(list, i, q) {
        assert ChildOk(s, q, i) && NodeLinked(s, list[i]);
      }
    }
    assert NodeLinked(s, s.root);
  }

  lemma {:induction false} CleanedReaches(s: Shape, lists: map<PlayTree, seq<PlayTree>>, n: PlayTree)
    requires ShapeOk(s) && lists.Keys == s.kids.Keys && Cleaned(s, lists, s.root) && n in s.kids && Worth(s, n)
    ensures Cleaned(s, lists, n)
    decreases s.depth[n]
  {
    if n != s.root {
      assert UpOk(s, n) && ChildOk(s, s.up[n], s.pos[n]);
      WorthUp(s, n);
      CleanedReaches(s, lists, s.up[n]);
    }
  }

  lemma CleanedLinks(s: Shape, lists: map<PlayTree, seq<PlayTree>>, n: PlayTree)
    requires Partly(s, lists) && Cleaned(s, lists, s.root)
    requires ShapeOk(Pruned(s)) && n in s.kids && Worth(s, n)
    ensures NodeLinked(Pruned(s), n)
  {
    CleanedReaches(s, lists, n);
    assert Listed(s, lists, n);
    if n != s.root { CleanedSiblings(s, lists, n); }
  }

  lemma PrunedSiblings(s: Shape, n: PlayTree)
    requires ShapeOk(s) && ShapeOk(Pruned(s)) && n in s.up && Worth(s, n)
    ensures s.up[n] in s.kids && Worth(s, s.up[n]) && ParentOf(Pruned(s), n) == s.up[n]
    ensures Siblings(Pruned(s), n) == Kept(s, s.kids[s.up[n]]) && Pos(Pruned(s), n) == Place(s, n)
  {
    WorthUp(s, n);
  }

  lemma CleanedSiblings(s: Shape, lists: map<PlayTree, seq<PlayTree>>, n: PlayTree)
    requires Partly(s, lists) && Cleaned(s, lists, s.root)
    requires ShapeOk(Pruned(s)) && n in s.up && Worth(s, n)
    ensures var t := Pruned(s);
      && n.parent == ParentOf(t, n)
      && n.next == At(Siblings(t, n), Pos(t, n) + 1) && n.prev == At(Siblings(t, n), Pos(t, n) - 1)
  {
    var q, i := s.up[n], Pos(Pruned(s), n);
    PrunedSiblings(s, n);
    CleanedReaches(s, lists, q);
    assert Listed(s, lists, q) && InList(lists[q], i, q);
  }

  /** Once the root is cleaned, the pointers are those of the pruned tree. */
  lemma CleanedIsPruned(s: Shape, lists: map<PlayTree, seq<PlayTree>>)
    requires Partly(s, lists) && Cleaned(s, lists, s.root) && HasFile(s, s.root)
    ensures Linked(Pruned(s)) && Clean(Pruned(s))
  {
    var t := Pruned(s);
    PrunedOk(s);
    forall n | n in t.kids ensures NodeLinked(t, n) { CleanedLinks(s, lists, n); }
  }
}

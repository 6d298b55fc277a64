/** The routines of playtree.c that read or mark the nodes of a tree. */
module PlayTreeNodes {
  import opened Util
  import opened PlayTrees
  import opened IterModel
  import opened PlayTreeLists

  // ---------------------------------------------------------------- nodes and their shape

  /** Node n's pointers and type say what the shape says. */
  ghost predicate NodeLinked(s: Shape, n: PlayTree)
    requires ShapeOk(s) && n in s.kids
    reads n`child, n`parent, n`next, n`prev, n`entryType
  {
    && n.child == At(s.kids[n], 0)
    && n.parent == ParentOf(s, n)
    && n.next == At(Siblings(s, n), Pos(s, n) + 1)
    && n.prev == At(Siblings(s, n), Pos(s, n) - 1)
    && (n.entryType != ENTRY_NODE <==> n in s.entries)
  }

  ghost predicate Linked(s: Shape)
    reads s.kids.Keys`child, s.kids.Keys`parent, s.kids.Keys`next, s.kids.Keys`prev, s.kids.Keys`entryType
  {
    ShapeOk(s) && forall n {:trigger NodeLinked(s, n)} | n in s.kids :: NodeLinked(s, n)
  }

  /** The siblings of a node are a list, linked both ways under their parent. */
  lemma SiblingsChain(s: Shape, n: PlayTree)
    requires Linked(s) && n in s.kids
    ensures Chain(Siblings(s, n), ParentOf(s, n))
  {
    var all := Siblings(s, n);
    if n != s.root { assert UpOk(s, n) && NodeLinked(s, s.up[n]); }
    forall i | 0 <= i < |all| ensures InList(all, i, ParentOf(s, n)) {
      SiblingFacts(s, n, i);
      assert NodeLinked(s, all[i]);
    }
  }

  /** Moves d siblings along; off the end, says what is left of the step, one at least. */
  method Along(pt: PlayTree, d: int, ghost s: Shape) returns (found: PlayTree?, left: int)
    requires Linked(s) && pt in s.kids
    ensures var i, n := Pos(s, pt), |Siblings(s, pt)|;
      if 0 <= i + d < n then found == Siblings(s, pt)[i + d] && left == Sign(d)
          else found == null && left == Leftover(d, i, n)
  {
    ghost var all, k := Siblings(s, pt), Pos(s, pt) as int;
    var i := d;
    found := pt;
    assert NodeLinked(s, pt);
    if d > 0 {
      while i > 0 && found != null
        invariant 0 <= i <= d && 0 <= k <= |all| && found == At(all, k) && k == Pos(s, pt) + (d - i)
        decreases i
      {
        SiblingFacts(s, pt, k);
        assert NodeLinked(s, found);
        found := found.next;
        k := k + 1;
        i := i - 1;
      }
      left := if i != 0 then i else 1;
    } else if d < 0 {
      while i < 0 && found != null
        invariant d <= i <= 0 && -1 <= k < |all| && found == At(all, k) && k == Pos(s, pt) + (d - i)
        decreases -i
      {
        SiblingFacts(s, pt, k);
        assert NodeLinked(s, found);
        found := found.prev;
        k := k - 1;
        i := i + 1;
      }
      left := if i != 0 then i else -1;
    } else {
      left := 0;
    }
  }

  // ---------------------------------------------------------------- drawing

  /** How many of the first i nodes are not played. */
  ghost function FreeBefore(nodes: seq<PlayTree>, i: nat, played: set<PlayTree>): nat
    requires i <= |nodes|
  {
    if i == 0 then 0 else FreeBefore(nodes, i - 1, played) + if nodes[i - 1] in played then 0 else 1
  }

  /** A node that is not played stands in the list of free choices at the number of free ones before it. */
  lemma {:induction false} FreeIndex(nodes: seq<PlayTree>, k: nat, played: set<PlayTree>)
    requires k < |nodes|
    ensures FreeBefore(nodes, |nodes|, played) == |Unplayed(nodes, played)|
    ensures nodes[k] !in played ==>
      FreeBefore(nodes, k, played) < |Unplayed(nodes, played)|
          && Unplayed(nodes, played)[FreeBefore(nodes, k, played)] == nodes[k]
    decreases |nodes|
  {
    FreeShift(nodes, |nodes|, played);
    if |nodes| > 1 {
      FreeIndex(nodes[1..], if k > 0 then k - 1 else 0, played);
      if k > 0 { FreeShift(nodes, k, played); }
    }
  }

  lemma {:induction false} FreeShift(nodes: seq<PlayTree>, i: nat, played: set<PlayTree>)
    requires 0 < i <= |nodes|
    ensures FreeBefore(nodes, i, played)
        == (if nodes[0] in played then 0 else 1) + FreeBefore(nodes[1..], i - 1, played)
  {
    if i > 1 { FreeShift(nodes, i - 1, played); }
  }

  ghost predicate MarksAre(s: Shape, played: set<PlayTree>)
    reads s.kids.Keys`played
  {
    forall n {:trigger n.played} | n in s.kids :: n.played <==> n in played
  }

  /** Counts the siblings of pt that are not played: back to the head, then on from pt. */
  method CountUnplayed(pt: PlayTree, ghost s: Shape, ghost played: set<PlayTree>) returns (count: nat, head: PlayTree)
    requires Linked(s) && pt in s.kids && MarksAre(s, played)
    ensures head == Siblings(s, pt)[0] && head in s.kids
    ensures count == FreeBefore(Siblings(s, pt), |Siblings(s, pt)|, played)
  {
    ghost var all, here := Siblings(s, pt), Pos(s, pt);
    ghost var k := here;
    count := 0;
    var i := pt;
    assert NodeLinked(s, pt);
    while i.prev != null
      invariant 0 <= k <= here && i == all[k] && i in s.kids && i.prev == At(all, k - 1)
      invariant count == FreeBefore(all, here + 1, played) - FreeBefore(all, k + 1, played)
      decreases k
    {
      if !i.played { count := count + 1; }
      i := i.prev;
      k := k - 1;
      SiblingFacts(s, pt, k);
      assert NodeLinked(s, i);
    }
    head := i;
    if !i.played { count := count + 1; }
    assert FreeBefore(all, 1, played) == if i.played then 0 else 1;
    k := here + 1;
    var j := pt.next;
    while j != null
      invariant here + 1 <= k <= |all| && j == At(all, k)
      invariant count == FreeBefore(all, k, played)
      decreases |all| - k
    {
      SiblingFacts(s, pt, k);
      assert NodeLinked(s, j);
      if !j.played { count := count + 1; }
      j := j.next;
      k := k + 1;
    }
  }

  /** play_tree_rnd_step: the sibling that a draw from those not played picks.  The search for it
      never runs off the list. */
  method RndStep(pt: PlayTree, draw: nat, ghost s: Shape, ghost played: set<PlayTree>) returns (pick: PlayTree?)
    requires Linked(s) && pt in s.kids && MarksAre(s, played)
    ensures var free := Unplayed(Siblings(s, pt), played);
      if free == [] then pick == null else pick == free[if draw < |free| then draw else 0]
  {
    pick := null;
    ghost var all, k := Siblings(s, pt), 0;
    FreeIndex(all, 0, played);
    var count, head := CountUnplayed(pt, s, played);
    if count == 0 { return; }
    var r: int := if draw < count then draw else 0;
    ghost var drawn := r;
    var i: PlayTree? := head;
    while i != null
      invariant 0 <= k <= |all| && i == At(all, k)
      invariant 0 <= r == drawn - FreeBefore(all, k, played)
      decreases |all| - k
    {
      SiblingFacts(s, pt, k);
      assert NodeLinked(s, i);
      FreeIndex(all, k, played);
      if !i.played { r := r - 1; }
      if r < 0 { return i; }
      i := i.next;
      k := k + 1;
    }
    assert false;
  }

  // ---------------------------------------------------------------- clearing the played marks

  /** Node n is at most deep levels below top, or at any depth when deep is negative. */
  ghost predicate Reached(s: Shape, top: PlayTree, n: PlayTree, deep: int)
    requires ShapeOk(s) && top in s.kids
    decreases Room(s, top)
  {
    n == top ||
    (deep != 0 && exists j {:trigger ChildOk(s, top, j)} | 0 <= j < |s.kids[top]| ::
       ChildOk(s, top, j) && Reached(s, s.kids[top][j], n, if deep > 0 then deep - 1 else deep))
  }

  /** play_tree_unset_flag for the played mark */
  method UnsetPlayed(pt: PlayTree, deep: int, ghost s: Shape)
    requires Linked(s) && pt in s.kids
    modifies s.kids.Keys`played
    ensures forall n | n in s.kids :: n.played == (old(n.played) && !Reached(s, pt, n, deep))
    decreases Room(s, pt)
  {
    pt.played := false;
    assert NodeLinked(s, pt);
    if deep != 0 && pt.child != null {
      var d := if deep > 0 then deep - 1 else deep;
      ghost var k := 0;
      var i := pt.child;
      while i != null
        invariant 0 <= k <= |s.kids[pt]| && i == At(s.kids[pt], k)
        invariant forall n {:trigger n.played} | n in s.kids ::
          n.played == (old(n.played) && n != pt && !exists j {:trigger ChildOk(s, pt, j)} | 0 <= j < k ::
              ChildOk(s, pt, j) && Reached(s, s.kids[pt][j], n, d))
        decreases |s.kids[pt]| - k
      {
        assert ChildOk(s, pt, k) && NodeLinked(s, i);
        UnsetPlayed(i, d, s);
        i := i.next;
        k := k + 1;
      }
    }
  }

  lemma {:induction false} ReachesChild(s: Shape, top: PlayTree, n: PlayTree)
    requires ShapeOk(s) && top in s.kids && n in s.up && s.up[n] in s.kids && Reached(s, top, s.up[n], -1)
    ensures Reached(s, top, n, -1)
    decreases Room(s, top)
  {
    if s.up[n] == top {
      assert UpOk(s, n) && ChildOk(s, top, s.pos[n]);
    } else {
      var j :| 0 <= j < |s.kids[top]| && ChildOk(s, top, j) && Reached(s, s.kids[top][j], s.up[n], -1);
      ReachesChild(s, s.kids[top][j], n);
    }
  }

  lemma {:induction false} RootReaches(s: Shape, n: PlayTree)
    requires ShapeOk(s) && n in s.kids
    ensures Reached(s, s.root, n, -1)
    decreases s.depth[n]
  {
    if n != s.root {
      assert UpOk(s, n) && ChildOk(s, s.up[n], s.pos[n]);
      RootReaches(s, s.up[n]);
      ReachesChild(s, s.root, n);
    }
  }
}

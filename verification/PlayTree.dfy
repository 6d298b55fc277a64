/** The play tree of playtree.c: its records, and the shape their pointers describe. */
module PlayTrees {
  import opened Util

  datatype EntryType = ENTRY_NODE | ENTRY_DVD | ENTRY_VCD | ENTRY_TV | ENTRY_FILE

  datatype Param = Param(name: string, value: Option<string>)

  class PlayTree {
    var parent: PlayTree?
    var child: PlayTree?
    var next: PlayTree?
    var prev: PlayTree?
    var params: Option<seq<Param>>  // None is the NULL array
    var loop: int
    var files: seq<string>
    var entryType: EntryType
    var rnd: bool                   // PLAY_TREE_RND
    var played: bool                // PLAY_TREE_RND_PLAYED

    constructor ()
      ensures parent == child == next == prev == null
      ensures params == None && loop == 0 && files == [] && entryType == ENTRY_NODE && !rnd && !played
    {
      parent, child, next, prev := null, null, null, null;
      params, loop, files, entryType, rnd, played := None, 0, [], ENTRY_NODE, false, false;
    }
  }

  /** A tree as maps over its nodes: the children of every node, and for every node but the root
      its parent and its place among its siblings.  No node is deeper than bound. */
  datatype Shape = Shape(
    root: PlayTree,
    kids: map<PlayTree, seq<PlayTree>>,
    up: map<PlayTree, PlayTree>,
    pos: map<PlayTree, nat>,
    depth: map<PlayTree, nat>,
    bound: nat,
    entries: set<PlayTree>)

  ghost predicate ChildOk(s: Shape, p: PlayTree, i: nat)
    requires p in s.kids && i < |s.kids[p]| && p in s.depth
  {
    var c := s.kids[p][i];
    && c in s.kids && c in s.up && c in s.pos && c in s.depth
    && s.up[c] == p && s.pos[c] == i && s.depth[c] == s.depth[p] + 1
  }

  ghost predicate UpOk(s: Shape, c: PlayTree)
    requires c in s.up && c in s.pos
  {
    s.up[c] in s.kids && s.pos[c] < |s.kids[s.up[c]]| && s.kids[s.up[c]][s.pos[c]] == c
  }

  ghost predicate ShapeOk(s: Shape) {
    && s.root in s.kids
    && s.depth.Keys == s.kids.Keys
    && s.up.Keys == s.pos.Keys == s.kids.Keys - {s.root}
    && s.entries <= s.kids.Keys
    && s.depth[s.root] == 0
    && (forall n | n in s.kids :: s.depth[n] <= s.bound)
    && (forall p, i {:trigger ChildOk(s, p, i)} | p in s.kids && 0 <= i < |s.kids[p]| :: ChildOk(s, p, i))
    && (forall c {:trigger UpOk(s, c)} | c in s.up :: UpOk(s, c))
    && (forall e | e in s.entries :: s.kids[e] == [])
  }

  /** How far above the deepest level node n is. */
  function Room(s: Shape, n: PlayTree): nat
    requires n in s.depth && s.depth[n] <= s.bound
  {
    s.bound - s.depth[n]
  }

  /** play_tree_is_valid: the subtree of n holds a file entry. */
  ghost predicate HasFile(s: Shape, n: PlayTree)
    requires ShapeOk(s) && n in s.kids
    decreases Room(s, n)
  {
    n in s.entries ||
    exists i | 0 <= i < |s.kids[n]| :: assert ChildOk(s, n, i); HasFile(s, s.kids[n][i])
  }

  /** What play_tree_cleanup leaves: no childless node that is not an entry. */
  ghost predicate Clean(s: Shape) {
    forall n | n in s.kids :: n in s.entries || s.kids[n] != []
  }

  lemma {:induction false} CleanHasFile(s: Shape, n: PlayTree)
    requires ShapeOk(s) && Clean(s) && n in s.kids
    ensures HasFile(s, n)
    decreases Room(s, n)
  {
    if n !in s.entries {
      assert ChildOk(s, n, 0);
      CleanHasFile(s, s.kids[n][0]);
    }
  }

  ghost function ParentOf(s: Shape, n: PlayTree): PlayTree?
    requires ShapeOk(s) && n in s.kids
  {
    if n == s.root then null else s.up[n]
  }

  function Siblings(s: Shape, n: PlayTree): (r: seq<PlayTree>)
    requires ShapeOk(s) && n in s.kids
    ensures n in r
  {
    if n == s.root then [n] else assert UpOk(s, n); s.kids[s.up[n]]
  }

  function Pos(s: Shape, n: PlayTree): (i: nat)
    requires ShapeOk(s) && n in s.kids
    ensures i < |Siblings(s, n)| && Siblings(s, n)[i] == n
  {
    if n == s.root then 0 else assert UpOk(s, n); s.pos[n]
  }

  lemma SiblingFacts(s: Shape, n: PlayTree, i: nat)
    requires ShapeOk(s) && n in s.kids && i < |Siblings(s, n)|
    ensures var m := Siblings(s, n)[i];
      && m in s.kids && s.depth[m] == s.depth[n] && Pos(s, m) == i && Siblings(s, m) == Siblings(s, n)
      && (n == s.root <==> m == s.root)
      && (n != s.root ==> s.up[m] == s.up[n])
  {
    if n != s.root { assert UpOk(s, n) && ChildOk(s, s.up[n], i) && ChildOk(s, s.up[n], s.pos[n]); }
  }
}

/**
 The resumable iterator of playtree.c as a value: one function per routine, each
 giving the whole new state.  The random draws to come are part of the state; a
 number too large for the choice at hand stands for the first one.
 */
module IterModel {
  import opened Util
  import opened ConfigModel
  import opened PlayTrees

  datatype Status = ERROR | ENTRY | NODE | END

  /** What a walk does not change: the tree and what its nodes carry. */
  datatype Playlist = Playlist(
    shape: Shape,
    params: map<PlayTree, Option<seq<Param>>>,
    files: map<PlayTree, seq<string>>,
    shuffled: set<PlayTree>)

  datatype Iter = Iter(
    tree: PlayTree,
    loop: int,
    stack: seq<int>,
    pushed: bool,
    rndMode: bool,
    file: int,
    numFiles: int,
    loops: map<PlayTree, int>,
    played: set<PlayTree>,
    cfg: Option<Cfg>,
    draws: seq<nat>)

  // ---------------------------------------------------------------- what every call may assume

  ghost predicate PlaylistOk(p: Playlist) {
    && ShapeOk(p.shape) && Clean(p.shape)
    && p.params.Keys == p.files.Keys == p.shape.kids.Keys
  }

  ghost predicate Ready(p: Playlist, it: Iter) {
    && PlaylistOk(p)
    && it.tree in p.shape.kids
    && |it.stack| == p.shape.depth[it.tree]
    && it.loops.Keys == p.shape.kids.Keys
    && it.played <= p.shape.kids.Keys
  }

  // ---------------------------------------------------------------- pushing and popping parameters

  /** Sets the parameters in order; a refused one is reported and skipped. */
  function SetParams(c: Cfg, params: seq<Param>): (r: Cfg)
    requires Valid(c) && Alive(c, c.lvl)
    ensures Valid(r) && r.lvl == c.lvl
    ensures forall b :: Alive(c, b) ==> Alive(r, b)
    decreases params
  {
    if params == [] then c
    else
      SetValid(c, params[0].name, params[0].value);
      SetParams(Set(c, params[0].name, params[0].value), params[1..])
  }

  function PushParams(c: Cfg, params: Option<seq<Param>>): (r: Cfg)
    requires Valid(c) && Alive(c, c.lvl)
    ensures Valid(r) && r.lvl == c.lvl + 1
    ensures forall b | b <= c.lvl :: Alive(c, b) ==> Alive(r, b)
  {
    PushReady(c);
    if params.None? then Push(c) else SetParams(Push(c), params.value)
  }

  /** The option stack with one more level, holding the given parameters. */
  ghost function PushedParams(cfg: Option<Cfg>, params: Option<seq<Param>>): Option<Cfg> {
    if cfg.Some? && Valid(cfg.value) && Alive(cfg.value, cfg.value.lvl) then Some(PushParams(cfg.value, params))
        else cfg
  }

  ghost function Pushed(p: Playlist, cfg: Option<Cfg>, n: PlayTree): Option<Cfg>
    requires n in p.params
  {
    PushedParams(cfg, p.params[n])
  }

  ghost function Popped(cfg: Option<Cfg>): (r: Option<Cfg>) {
    if cfg.Some? && Valid(cfg.value) then Some(Pop(cfg.value)) else cfg
  }

  // ---------------------------------------------------------------- choosing the next sibling

  predicate Shuffling(p: Playlist, n: PlayTree) {
    n in p.shape.up && p.shape.up[n] in p.shuffled
  }

  function Unplayed(nodes: seq<PlayTree>, played: set<PlayTree>): (r: seq<PlayTree>)
    ensures forall n <- r :: n in nodes && n !in played
    ensures forall n <- nodes :: n !in played ==> n in r
  {
    if nodes == [] then []
    else (if nodes[0] in played then [] else [nodes[0]]) + Unplayed(nodes[1..], played)
  }

  /** No sibling is left to be drawn. */
  predicate Exhausted(p: Playlist, it: Iter)
    requires ShapeOk(p.shape) && it.tree in p.shape.kids
  {
    Shuffling(p, it.tree) && Unplayed(Siblings(p.shape, it.tree), it.played) == []
  }

  /** Some sibling that was not played yet, picked by the next draw. */
  function Draw(p: Playlist, it: Iter): (r: (PlayTree, Iter))
    requires Ready(p, it) && Unplayed(Siblings(p.shape, it.tree), it.played) != []
    ensures r.0 in Siblings(p.shape, it.tree) && r.0 !in it.played
    ensures r.1 == it.(draws := r.1.draws)
    ensures r.0 in p.shape.kids && Room(p.shape, r.0) == Room(p.shape, it.tree)
    ensures Ready(p, r.1.(tree := r.0))
  {
    var all := Siblings(p.shape, it.tree);
    var free := Unplayed(all, it.played);
    var pt := free[if it.draws == [] || it.draws[0] >= |free| then 0 else it.draws[0]];
    SiblingFacts(p.shape, it.tree, IndexOf(all, pt));
    (pt, if it.draws == [] then it else it.(draws := it.draws[1..]))
  }

  function Sign(d: int): int {
    if d > 0 then 1 else if d < 0 then -1 else 0
  }

  /** What is left of a step of d from place i among n siblings that runs off an end;
      a step that ends exactly one past the end still counts as one. */
  function Leftover(d: int, i: nat, n: nat): int
    requires i < n && (i + d < 0 || i + d >= n)
  {
    if d > 0 then Max(d - (n - i), 1) else Min(d + (i + 1), -1)
  }

  /** Is there another round of the current group to play in direction d? */
  predicate LoopsAgain(p: Playlist, it: Iter, d: int)
    requires ShapeOk(p.shape) && it.tree in p.shape.kids && it.loops.Keys == p.shape.kids.Keys
  {
    it.tree != p.shape.root &&
    (assert UpOk(p.shape, it.tree);
     var l := it.loops[p.shape.up[it.tree]];
     l != 0 && ((d > 0 && it.loop != 0) || (d < 0 && (it.loop < 0 || it.loop < l))))
  }

  /** Back to the first sibling, or forward to the last one, with the loop counter moved. */
  function Rewind(p: Playlist, it: Iter, d: int): (r: Iter)
    requires Ready(p, it) && LoopsAgain(p, it, d)
    ensures Ready(p, r) && r.pushed == it.pushed
    ensures Room(p.shape, r.tree) == Room(p.shape, it.tree)
  {
    var all := Siblings(p.shape, it.tree);
    assert UpOk(p.shape, it.tree);
    if d > 0 then
      SiblingFacts(p.shape, it.tree, 0);
      it.(tree := all[0], loop := if it.loop > 0 then it.loop - 1 else it.loop)
    else
      SiblingFacts(p.shape, it.tree, |all| - 1);
      it.(tree := all[|all| - 1], loop := if 0 <= it.loop < it.loops[p.shape.up[it.tree]] then it.loop + 1 else it.loop)
  }

  /** All played marks are cleared and the root's loop counter, if positive, goes down. */
  function Replay(p: Playlist, it: Iter): (r: Iter)
    requires Ready(p, it)
    ensures Ready(p, r) && r.pushed == it.pushed && r.tree == it.tree && !Exhausted(p, r)
  {
    var l := it.loops[p.shape.root];
    it.(played := {}, loops := if l > 0 then it.loops[p.shape.root := l - 1] else it.loops)
  }

  // ---------------------------------------------------------------- the moves inside a step

  /** A step first leaves the entry: its options are popped and the file cursor is reset. */
  ghost function Leave(p: Playlist, it: Iter): (r: Iter)
    requires Ready(p, it)
    ensures Ready(p, r) && r.rndMode == Shuffling(p, it.tree)
  {
    it.(cfg := if it.pushed then Popped(it.cfg) else it.cfg,
        pushed := it.pushed && it.cfg.None?,
        rndMode := Shuffling(p, it.tree), file := -1)
  }

  /** One level down, to the first or last child, with the node's parameters pushed. */
  ghost function Within(p: Playlist, it: Iter, d: int): (r: Iter)
    requires Ready(p, it) && p.shape.kids[it.tree] != []
    ensures Ready(p, r) && p.shape.depth[r.tree] == p.shape.depth[it.tree] + 1
  {
    var kids := p.shape.kids[it.tree];
    var c := if d >= 0 then 0 else |kids| - 1;
    assert ChildOk(p.shape, it.tree, c);
    it.(cfg := Pushed(p, it.cfg, it.tree), file := -1, stack := it.stack + [it.loop],
        loop := it.loops[it.tree] - 1, tree := kids[c])
  }

  /** One level up, with the node's parameters popped. */
  ghost function Above(p: Playlist, it: Iter): (r: Iter)
    requires Ready(p, it) && it.tree != p.shape.root
    ensures Ready(p, r) && p.shape.depth[r.tree] + 1 == p.shape.depth[it.tree]
  {
    assert UpOk(p.shape, it.tree) && ChildOk(p.shape, p.shape.up[it.tree], p.shape.pos[it.tree]);
    var top := |it.stack| - 1;
    var parent := p.shape.up[it.tree];
    it.(cfg := Popped(it.cfg), file := -1, tree := parent, loop := it.stack[top], stack := it.stack[..top],
        played := if it.cfg.Some? && it.rndMode then it.played + {parent} else it.played)
  }

  /** Stops at an entry, with its parameters pushed; a shuffled entry is marked as played. */
  ghost function Enter(p: Playlist, it: Iter): (r: Iter)
    requires Ready(p, it)
    ensures Ready(p, r)
  {
    var e := it.(numFiles := |p.files[it.tree]|);
    if it.cfg.None? then e
    else e.(cfg := Pushed(p, it.cfg, it.tree), pushed := true,
            played := if it.rndMode then it.played + {it.tree} else it.played)
  }

  // ---------------------------------------------------------------- the three routines

  ghost function Step(p: Playlist, it: Iter, d: int, withNodes: bool): (r: (Iter, Status))
    requires Ready(p, it)
    ensures Ready(p, r.0) && r.1 != ERROR
    decreases if d == 0 then 0 else p.shape.depth[it.tree] + 1, Room(p.shape, it.tree),
        if Exhausted(p, it) then 1 else 0, 4
  {
    var here := Leave(p, it);
    if here.rndMode then StepShuffled(p, here, d, withNodes) else StepInOrder(p, here, d, withNodes)
  }

  /** In a shuffled group: any sibling not played yet, else another round of the whole list. */
  ghost function StepShuffled(p: Playlist, it: Iter, d: int, withNodes: bool): (r: (Iter, Status))
    requires Ready(p, it) && it.rndMode == Shuffling(p, it.tree) == true
    ensures Ready(p, r.0) && r.1 != ERROR
    decreases if d == 0 then 0 else p.shape.depth[it.tree] + 1, Room(p.shape, it.tree),
        if Exhausted(p, it) then 1 else 0, 3
  {
    if Exhausted(p, it) then
      if it.loops[p.shape.root] == 0 then (it, END)
      else Step(p, Replay(p, it), 0, withNodes)
    else
      var (pt, next) := Draw(p, it);
      Arrive(p, next, pt, d, withNodes)
  }

  /** Otherwise: d siblings along, as far as there are that many. */
  ghost function StepInOrder(p: Playlist, it: Iter, d: int, withNodes: bool): (r: (Iter, Status))
    requires Ready(p, it)
    ensures Ready(p, r.0) && r.1 != ERROR
    decreases if d == 0 then 0 else p.shape.depth[it.tree] + 1, Room(p.shape, it.tree), 0, 3
  {
    var all, i := Siblings(p.shape, it.tree), Pos(p.shape, it.tree);
    if 0 <= i + d < |all| then
      SiblingFacts(p.shape, it.tree, i + d);
      Arrive(p, it, all[i + d], Sign(d), withNodes)
    else
      StepOffTheEnd(p, it, Leftover(d, i, |all|), withNodes)
  }

  /** No sibling that far: another round of the group, else up a level. */
  ghost function StepOffTheEnd(p: Playlist, it: Iter, d: int, withNodes: bool): (r: (Iter, Status))
    requires Ready(p, it) && d != 0
    ensures Ready(p, r.0) && r.1 != ERROR
    decreases p.shape.depth[it.tree] + 1, Room(p.shape, it.tree), 0, 2
  {
    if LoopsAgain(p, it, d) then Step(p, Rewind(p, it, d), 0, withNodes) else Up(p, it, d, withNodes)
  }

  /** The second half of a step: pt has been chosen. */
  ghost function Arrive(p: Playlist, it: Iter, pt: PlayTree, d: int, withNodes: bool): (r: (Iter, Status))
    requires Ready(p, it.(tree := pt))
    ensures Ready(p, r.0) && r.1 != ERROR
    decreases 0, Room(p.shape, pt), 0, 2
  {
    var at := it.(tree := pt);
    if p.shape.kids[pt] != [] then
      if withNodes then (at, NODE) else Down(p, at, d, withNodes)
    else
      (Enter(p, at), ENTRY)
  }

  ghost function Down(p: Playlist, it: Iter, d: int, withNodes: bool): (r: (Iter, Status))
    requires Ready(p, it) && p.shape.kids[it.tree] != []
    ensures Ready(p, r.0) && r.1 != ERROR
    decreases 0, Room(p.shape, it.tree), 0, 1
  {
    Step(p, Within(p, it, d), 0, withNodes)
  }

  ghost function Up(p: Playlist, it: Iter, d: int, withNodes: bool): (r: (Iter, Status))
    requires Ready(p, it)
    ensures Ready(p, r.0) && r.1 != ERROR
    decreases p.shape.depth[it.tree], p.shape.bound + 1, 0, 0
  {
    if it.tree == p.shape.root then (it.(file := -1), END)
    else Step(p, Above(p, it), d, withNodes)
  }

  /** play_tree_iter_new: a fresh iterator standing on the root. */
  function Start(p: Playlist, loops: map<PlayTree, int>, played: set<PlayTree>, cfg: Option<Cfg>,
      draws: seq<nat>): Iter {
    Iter(p.shape.root, 0, [], false, false, 0, 0, loops, played, cfg, draws)
  }
}

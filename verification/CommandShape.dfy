/** The tree that the command line parser links together is one that can be cleaned up and played. */
module CommandShape {
  import opened Util
  import opened PlayTrees
  import opened PlayTreeLists
  import opened PlayTreeNodes
  import opened CommandLine
  import opened CommandNodes
  import opened CommandParser

  /** Every node but the first is a child of an earlier one. */
  ghost predicate Parented(infos: seq<Info>) {
    forall m: nat {:trigger infos[m].parent} | 0 < m < |infos| ::
        infos[m].parent < m && m in infos[infos[m].parent].kids
  }

  lemma {:induction false} RepParents(infos: seq<Info>, n: nat, t: Tree, m: nat)
    requires Rep(infos, n, t) && n < m < n + Size(t)
    ensures infos[m].parent < m && m in infos[infos[m].parent].kids
    decreases t, 1
  {
    RepAllParents(infos, n, infos[n].kids, n + 1, t.kids, m);
  }

  lemma {:induction false} RepAllParents(infos: seq<Info>, parent: nat, ks: seq<nat>, s: nat, ts: seq<Tree>, m: nat)
    requires RepAll(infos, parent, ks, s, ts) && parent < s <= m < s + SizeAll(ts) && parent < |infos|
    requires forall k <- ks :: k in infos[parent].kids
    ensures m < |infos| && infos[m].parent < m && m in infos[infos[m].parent].kids
    decreases ts, 0
  {
    if m == s {
      assert ks[0] in ks;
    } else if m < s + Size(ts[0]) {
      RepParents(infos, s, ts[0], m);
    } else {
      RepAllParents(infos, parent, ks[1..], s + Size(ts[0]), ts[1..], m);
    }
  }

  ghost function Depth(infos: seq<Info>, n: nat): (d: nat)
    requires Parented(infos) && n < |infos|
    ensures d <= n
  {
    if n == 0 then 0 else 1 + Depth(infos, infos[n].parent)
  }

  /** The nodes as a shape. */
  ghost function ShapeOf(infos: seq<Info>, objs: seq<PlayTree>): Shape
    requires 0 < |objs| == |infos| && Numbered(infos) && Parented(infos)
  {
    Shape(objs[0],
      map o | o in objs :: KidsAt(infos, objs, IndexOf(objs, o)),
      map o | o in objs && o != objs[0] :: objs[infos[IndexOf(objs, o)].parent],
      map o | o in objs && o != objs[0] :: IndexOf(infos[infos[IndexOf(objs, o)].parent].kids, IndexOf(objs, o)),
      map o | o in objs :: Depth(infos, IndexOf(objs, o)),
      |infos|,
      set o | o in objs && infos[IndexOf(objs, o)].file.Some?)
  }

  ghost function KidsAt(infos: seq<Info>, objs: seq<PlayTree>, n: nat): seq<PlayTree>
    requires |objs| == |infos| && Numbered(infos) && n < |infos|
  {
    assert KidsOk(infos, n);
    KidsOf(infos, objs, n)
  }

  lemma NumberOf(objs: seq<PlayTree>, n: nat)
    requires NoRepeats(objs) && n < |objs|
    ensures objs[n] in objs && IndexOf(objs, objs[n]) == n
  {
  }

  /** Files are entries, and an entry has no children. */
  ghost predicate FilesAreLeaves(infos: seq<Info>) {
    forall n: nat | n < |infos| :: infos[n].file.Some? ==> infos[n].kids == []
  }

  ghost predicate NoTwice(ks: seq<nat>) {
    forall i, j | 0 <= i < j < |ks| :: ks[i] != ks[j]
  }

  /** What the numbered nodes are, apart from the heap. */
  ghost predicate Tidy(infos: seq<Info>, objs: seq<PlayTree>) {
    && 0 < |objs| == |infos| && NoRepeats(objs) && Numbered(infos) && Parented(infos)
    && forall n: nat {:trigger infos[n].kids} | n < |infos| :: NoTwice(infos[n].kids)
  }

  lemma RepresentsTidy(infos: seq<Info>, objs: seq<PlayTree>)
    requires Represents(infos, objs) && Parented(infos)
    ensures Tidy(infos, objs)
  {
    forall n: nat | n < |infos| ensures NoTwice(infos[n].kids) {
      assert KidsOk(infos, n) && NodeIs(infos, objs, n);
      var kids := KidsOf(infos, objs, n);
      ChainNoRepeats(kids, objs[n]);
      forall i, j | 0 <= i < j < |kids| ensures infos[n].kids[i] != infos[n].kids[j] { assert kids[i] != kids[j]; }
    }
  }

  lemma KidsFine(infos: seq<Info>, objs: seq<PlayTree>, s: Shape)
    requires Tidy(infos, objs) && s == ShapeOf(infos, objs)
    ensures forall p, i {:trigger ChildOk(s, p, i)} | p in s.kids && 0 <= i < |s.kids[p]| ::
        p in s.depth && ChildOk(s, p, i)
  {
    forall p, i | p in s.kids && 0 <= i < |s.kids[p]| ensures p in s.depth && ChildOk(s, p, i) {
      ChildIsOk(infos, objs, s, IndexOf(objs, p), i);
    }
  }

  lemma UpsFine(infos: seq<Info>, objs: seq<PlayTree>, s: Shape)
    requires Tidy(infos, objs) && s == ShapeOf(infos, objs)
    ensures forall c {:trigger UpOk(s, c)} | c in s.up :: c in s.pos && UpOk(s, c)
  {
    forall c | c in s.up ensures c in s.pos && UpOk(s, c) { UpIsOk(infos, objs, s, IndexOf(objs, c)); }
  }

  lemma EntriesFine(infos: seq<Info>, objs: seq<PlayTree>, s: Shape)
    requires Tidy(infos, objs) && FilesAreLeaves(infos) && s == ShapeOf(infos, objs)
    ensures s.entries <= s.kids.Keys && forall e | e in s.entries :: s.kids[e] == []
  {
    forall e | e in s.entries ensures e in s.kids && s.kids[e] == [] { EntryIsLeaf(infos, objs, s, IndexOf(objs, e)); }
  }

  /** The maps speak of the same nodes. */
  lemma KeysFine(infos: seq<Info>, objs: seq<PlayTree>, s: Shape)
    requires Tidy(infos, objs) && s == ShapeOf(infos, objs)
    ensures s.root in s.kids && s.depth.Keys == s.kids.Keys
  {
  }

  lemma UpKeysFine(infos: seq<Info>, objs: seq<PlayTree>, s: Shape)
    requires Tidy(infos, objs) && s == ShapeOf(infos, objs)
    ensures s.up.Keys == s.kids.Keys - {s.root}
  {
    hide KidsAt, Depth, IndexOf, NoRepeats;
    forall o: PlayTree ensures o in s.up <==> o in s.kids && o != s.root {}
  }

  lemma PosKeysFine(infos: seq<Info>, objs: seq<PlayTree>, s: Shape)
    requires Tidy(infos, objs) && s == ShapeOf(infos, objs)
    ensures s.pos.Keys == s.kids.Keys - {s.root}
  {
    hide KidsAt, Depth, IndexOf, NoRepeats;
    forall o: PlayTree ensures o in s.pos <==> o in s.kids && o != s.root {}
  }

  lemma ShapeIsOk(infos: seq<Info>, objs: seq<PlayTree>, s: Shape)
    requires Tidy(infos, objs) && FilesAreLeaves(infos) && s == ShapeOf(infos, objs)
    ensures ShapeOk(s)
  {
    KeysFine(infos, objs, s);
    UpKeysFine(infos, objs, s);
    PosKeysFine(infos, objs, s);
    KidsFine(infos, objs, s);
    UpsFine(infos, objs, s);
    DepthsOk(infos, objs, s);
    EntriesFine(infos, objs, s);
  }

  lemma DepthsOk(infos: seq<Info>, objs: seq<PlayTree>, s: Shape)
    requires Tidy(infos, objs) && s == ShapeOf(infos, objs)
    ensures s.root in s.depth && s.depth[s.root] == 0 && forall o | o in s.kids :: s.depth[o] <= s.bound
  {
    NumberOf(objs, 0);
  }

  lemma EntryIsLeaf(infos: seq<Info>, objs: seq<PlayTree>, s: Shape, n: nat)
    requires Tidy(infos, objs) && s == ShapeOf(infos, objs)
    requires FilesAreLeaves(infos) && n < |infos| && infos[n].file.Some?
    ensures objs[n] in s.kids && s.kids[objs[n]] == []
  {
    NumberOf(objs, n);
  }

  lemma UpIsOk(infos: seq<Info>, objs: seq<PlayTree>, s: Shape, n: nat)
    requires Tidy(infos, objs) && 0 < n < |infos| && s == ShapeOf(infos, objs)
    ensures objs[n] in s.up && objs[n] in s.pos && UpOk(s, objs[n])
  {
    NumberOf(objs, n);
    NumberOf(objs, infos[n].parent);
    assert objs[n] != objs[0];
  }

  lemma ChildIsOk(infos: seq<Info>, objs: seq<PlayTree>, s: Shape, n: nat, i: nat)
    requires Tidy(infos, objs) && n < |infos| && i < |infos[n].kids| && s == ShapeOf(infos, objs)
    ensures objs[n] in s.kids && objs[n] in s.depth && i < |s.kids[objs[n]]| && ChildOk(s, objs[n], i)
  {
    assert KidsOk(infos, n);
    var k := infos[n].kids[i];
    NumberOf(objs, n);
    NumberOf(objs, k);
    assert NoTwice(infos[n].kids) && IndexOf(infos[n].kids, k) == i;
    assert objs[k] != objs[0];
  }

  /** A node's siblings in the shape are the children of its parent. */
  lemma SiblingsOf(infos: seq<Info>, objs: seq<PlayTree>, s: Shape, n: nat, p: nat, i: nat, ks: seq<PlayTree>)
    requires Tidy(infos, objs) && 0 < n < |infos| && s == ShapeOf(infos, objs) && ShapeOk(s)
    requires p == infos[n].parent && i == IndexOf(infos[p].kids, n) && KidsOk(infos, p) && ks == KidsOf(infos, objs, p)
    ensures var o := objs[n];
      o in s.up && s.up[o] == objs[p] && Siblings(s, o) == ks && Pos(s, o) == i < |ks| && ks[i] == o
  {
    NumberOf(objs, n);
    NumberOf(objs, p);
    assert objs[n] != objs[0];
  }

  ghost predicate StandsIn(s: Shape, o: PlayTree)
    requires ShapeOk(s) && o in s.kids
    reads o`parent, o`next, o`prev
  {
    && o.parent == ParentOf(s, o)
    && o.next == At(Siblings(s, o), Pos(s, o) + 1) && o.prev == At(Siblings(s, o), Pos(s, o) - 1)
  }

  lemma LinkedIn(s: Shape, o: PlayTree, ks: seq<PlayTree>, i: nat)
    requires ShapeOk(s) && o in s.up && o in s.kids && Siblings(s, o) == ks && Pos(s, o) == i < |ks| && ks[i] == o
    requires InList(ks, i, s.up[o])
    ensures StandsIn(s, o)
  {
  }

  lemma ChildLinked(infos: seq<Info>, objs: seq<PlayTree>, s: Shape, n: nat, p: nat)
    requires Tidy(infos, objs) && 0 < n < |infos| && s == ShapeOf(infos, objs) && ShapeOk(s)
    requires p == infos[n].parent && KidsOk(infos, p) && Chain(KidsOf(infos, objs, p), objs[p]) && objs[n] in s.kids
    ensures StandsIn(s, objs[n])
  {
    var ks, i := KidsOf(infos, objs, p), IndexOf(infos[p].kids, n);
    SiblingsOf(infos, objs, s, n, p, i, ks);
    assert InList(ks, i, objs[p]);
    LinkedIn(s, objs[n], ks, i);
  }

  lemma ObjectLinked(infos: seq<Info>, objs: seq<PlayTree>, s: Shape, n: nat)
    requires Represents(infos, objs) && Tidy(infos, objs) && n < |infos| && s == ShapeOf(infos, objs) && ShapeOk(s)
    ensures objs[n] in s.kids && NodeLinked(s, objs[n])
  {
    NumberOf(objs, n);
    assert KidsOk(infos, n) && NodeIs(infos, objs, n);
    if n > 0 {
      var p := infos[n].parent;
      assert KidsOk(infos, p) && NodeIs(infos, objs, p);
      ChildLinked(infos, objs, s, n, p);
    }
  }

  // ---------------------------------------------------------------- files have no children

  predicate Proper(t: Tree) {
    (t.file.Some? ==> t.kids == []) && forall i | 0 <= i < |t.kids| :: Proper(t.kids[i])
  }

  /** A group being filled. */
  predicate Filled(t: Tree) {
    t.file.None? && Proper(t)
  }

  lemma AttachProper(t: Tree, kid: Tree)
    requires Filled(t) && Proper(kid)
    ensures Filled(Attach(t, kid))
  {
  }

  lemma LastKidProper(t: Tree, kid: Tree)
    requires Filled(t) && t.kids != [] && kid.file == LastKid(t).file && kid.kids == LastKid(t).kids
    ensures Filled(WithLastKid(t, kid))
  {
    assert Proper(t.kids[|t.kids| - 1]) && Proper(kid);
  }

  lemma {:induction false} LeavesProper(names: seq<string>)
    ensures forall i | 0 <= i < |Leaves(names)| :: Proper(Leaves(names)[i])
  {
    if names != [] { LeavesProper(names[1..]); }
  }

  lemma TurnProper(args: seq<string>, t: Tree, m: Mode, o: Env)
    requires args != [] && Filled(t)
    ensures Turn(args, t, m, o).Stay? ==> Filled(Turn(args, t, m, o).tree)
  {
    var arg := args[0];
    var names := o.names(arg);
    if names == [] { AttachProper(t, Leaf(None)); }
    LeavesProper(names);
    OptionProper(if arg == "" then "" else arg[1..], args[1..], t, m, o);
  }

  lemma OptionProper(opt: string, rest: seq<string>, t: Tree, m: Mode, o: Env)
    requires Filled(t)
    ensures OptionTurn(opt, rest, t, m, o).Stay? ==> Filled(OptionTurn(opt, rest, t, m, o).tree)
  {
    if t.kids != [] {
      var kid := LastKid(t);
      var param := if rest == [] then None else Some(rest[0]);
      var l := if rest == [] || LoopCount(rest[0]).None? then 0 else LoopCount(rest[0]).value;
      LastKidProper(t, kid.(loop := l));
      LastKidProper(t, kid.(shuffle := true));
      LastKidProper(t, kid.(shuffle := false));
      LastKidProper(t, kid.(params := kid.params + [Param(opt, param)]));
    }
  }

  lemma {:induction false} ReadGroupProper(args: seq<string>, t: Tree, m: Mode, o: Env)
    requires Filled(t)
    ensures Filled(ReadGroup(args, t, m, o).0)
    decreases |args|
  {
    if args != [] {
      TurnProper(args, t, m, o);
      match Turn(args, t, m, o)
      case Bad(_) =>
      case Leave(_) =>
      case Stay(t', rest, m') => ReadGroupProper(rest, t', m', o);
      case Enter(rest, m') =>
        ReadGroupProper(rest, Group(t.shuffle), m', o);
        var (kid, after) := ReadGroup(rest, Group(t.shuffle), m', o);
        AttachProper(t, kid);
        if after.Closed? { ReadGroupProper(after.rest, Attach(t, kid), after.mode, o); }
    }
  }

  lemma {:induction false} RepLeaves(infos: seq<Info>, n: nat, t: Tree, m: nat)
    requires Rep(infos, n, t) && Proper(t) && n <= m < n + Size(t)
    ensures infos[m].file.Some? ==> infos[m].kids == []
    decreases t, 1
  {
    if m > n { RepAllLeaves(infos, n, infos[n].kids, n + 1, t.kids, m); }
  }

  lemma {:induction false} RepAllLeaves(infos: seq<Info>, parent: nat, ks: seq<nat>, s: nat, ts: seq<Tree>, m: nat)
    requires RepAll(infos, parent, ks, s, ts) && (forall i | 0 <= i < |ts| :: Proper(ts[i])) && s <= m < s + SizeAll(ts)
    ensures m < |infos| && (infos[m].file.Some? ==> infos[m].kids == [])
    decreases ts, 0
  {
    if m < s + Size(ts[0]) {
      RepLeaves(infos, s, ts[0], m);
    } else {
      RepAllLeaves(infos, parent, ks[1..], s + Size(ts[0]), ts[1..], m);
    }
  }

  /** What the parser returns is a well-linked tree, ready for play_tree_cleanup. */
  lemma ParsedIsLinked(argv: seq<string>, env: Env, infos: seq<Info>, objs: seq<PlayTree>)
    requires Meaning(argv, env).Built? && Represents(infos, objs)
    requires Rep(infos, 0, Meaning(argv, env).tree) && Size(Meaning(argv, env).tree) == |infos|
    ensures Parented(infos) && Linked(ShapeOf(infos, objs)) && ShapeOf(infos, objs).root == objs[0]
  {
    var t := Meaning(argv, env).tree;
    ReadGroupProper(argv, ROOT, BEGIN, env);
    forall m: nat | m < |infos| ensures infos[m].file.Some? ==> infos[m].kids == [] { RepLeaves(infos, 0, t, m); }
    forall m: nat | 0 < m < |infos| ensures infos[m].parent < m && m in infos[infos[m].parent].kids {
      RepParents(infos, 0, t, m);
    }
    var s := ShapeOf(infos, objs);
    RepresentsTidy(infos, objs);
    ShapeIsOk(infos, objs, s);
    forall o | o in s.kids ensures NodeLinked(s, o) { ObjectLinked(infos, objs, s, IndexOf(objs, o)); }
  }
}

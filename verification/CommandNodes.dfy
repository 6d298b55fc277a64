/** The tree under construction as numbered nodes, in the order in which they are made. */
module CommandNodes {
  import opened Util
  import opened PlayTrees
  import opened CommandLine

  datatype Info = Info(file: Option<string>, loop: int, shuffle: bool, params: seq<Param>, kids: seq<nat>, parent: nat)

  function Size(t: Tree): (n: nat)
    ensures n >= 1
    decreases t, 1
  {
    1 + SizeAll(t.kids)
  }

  function SizeAll(ts: seq<Tree>): nat
    decreases ts, 0
  {
    if ts == [] then 0 else Size(ts[0]) + SizeAll(ts[1..])
  }

  predicate Attrs(i: Info, t: Tree) {
    i.file == t.file && i.loop == t.loop && i.shuffle == t.shuffle && i.params == t.params
  }

  /** Node n and the ones after it are the tree t. */
  predicate Rep(infos: seq<Info>, n: nat, t: Tree)
    decreases t, 1
  {
    n + Size(t) <= |infos| && Attrs(infos[n], t) && RepAll(infos, n, infos[n].kids, n + 1, t.kids)
  }

  /** The children ks of parent, numbered from s on, are the trees ts. */
  predicate RepAll(infos: seq<Info>, parent: nat, ks: seq<nat>, s: nat, ts: seq<Tree>)
    decreases ts, 0
  {
    |ks| == |ts| && (ts == [] ||
      (ks[0] == s < |infos| && infos[s].parent == parent && Rep(infos, s, ts[0])
          && RepAll(infos, parent, ks[1..], s + Size(ts[0]), ts[1..])))
  }

  ghost predicate Agree(a: seq<Info>, b: seq<Info>, from: nat, to: nat) {
    from <= to <= |a| && to <= |b| && forall i | from <= i < to :: a[i] == b[i]
  }

  lemma {:induction false} RepFrame(a: seq<Info>, b: seq<Info>, n: nat, t: Tree)
    requires Rep(a, n, t) && Agree(a, b, n, n + Size(t))
    ensures Rep(b, n, t)
    decreases t, 1
  {
    RepAllFrame(a, b, n, a[n].kids, n + 1, t.kids);
  }

  lemma {:induction false} RepAllFrame(a: seq<Info>, b: seq<Info>, parent: nat, ks: seq<nat>, s: nat, ts: seq<Tree>)
    requires RepAll(a, parent, ks, s, ts) && Agree(a, b, s, s + SizeAll(ts))
    ensures RepAll(b, parent, ks, s, ts)
    decreases ts, 0
  {
    if ts != [] {
      RepFrame(a, b, s, ts[0]);
      RepAllFrame(a, b, parent, ks[1..], s + Size(ts[0]), ts[1..]);
    }
  }

  lemma {:induction false} SizeAllSnoc(ts: seq<Tree>, t: Tree, all: seq<Tree>)
    requires all == ts + [t]
    ensures SizeAll(all) == SizeAll(ts) + Size(t)
    decreases ts
  {
    if ts == [] {
      assert all[1..] == [];
    } else {
      assert all[1..] == ts[1..] + [t];
      SizeAllSnoc(ts[1..], t, all[1..]);
    }
  }

  /** One more child, right behind the others. */
  lemma {:induction false} RepAllSnoc(infos: seq<Info>, parent: nat, ks: seq<nat>, s: nat, ts: seq<Tree>, k: nat,
      t: Tree, ks': seq<nat>, ts': seq<Tree>)
    requires RepAll(infos, parent, ks, s, ts) && k == s + SizeAll(ts) < |infos| && infos[k].parent == parent
        && Rep(infos, k, t)
    requires ks' == ks + [k] && ts' == ts + [t]
    ensures RepAll(infos, parent, ks', s, ts')
    decreases ts
  {
    if ts == [] {
      assert ks'[1..] == [] && ts'[1..] == [];
    } else {
      assert ks'[1..] == ks[1..] + [k] && ts'[1..] == ts[1..] + [t];
      RepAllSnoc(infos, parent, ks[1..], s + Size(ts[0]), ts[1..], k, t, ks'[1..], ts'[1..]);
    }
  }

  /** And the other way round: the last child stands right behind the others. */
  lemma {:induction false} RepAllLast(infos: seq<Info>, parent: nat, ks: seq<nat>, s: nat, ts: seq<Tree>)
    requires RepAll(infos, parent, ks, s, ts) && ts != []
    ensures var n := |ts| - 1;
      && RepAll(infos, parent, ks[..n], s, ts[..n]) && ks[n] == s + SizeAll(ts[..n]) < |infos|
      && infos[ks[n]].parent == parent && Rep(infos, ks[n], ts[n])
      && SizeAll(ts) == SizeAll(ts[..n]) + Size(ts[n])
    decreases ts
  {
    var n := |ts| - 1;
    if n == 0 {
      assert ts[1..] == [] && ts[..0] == [] && ks[..0] == [];
    } else {
      RepAllLast(infos, parent, ks[1..], s + Size(ts[0]), ts[1..]);
      assert ts[..n][1..] == ts[1..][..n - 1] && ks[..n][1..] == ks[1..][..n - 1];
    }
  }

  // ---------------------------------------------------------------- the groups still open

  /** Node c stands in the open groups outer: each is complete up to the child that is open. */
  predicate Inside(infos: seq<Info>, outer: seq<Tree>, c: nat)
    decreases |outer|
  {
    c < |infos| &&
    if outer == [] then c == 0
    else
      var t, p, k := outer[|outer| - 1], infos[c].parent, |outer| - 1;
      && p + Size(t) == c && Attrs(infos[p], t)
      && |infos[p].kids| == |t.kids| + 1 && infos[p].kids[|t.kids|] == c
      && RepAll(infos, p, infos[p].kids[..|t.kids|], p + 1, t.kids)
      && Inside(infos, outer[..k], p)
  }

  lemma {:induction false} InsideFrame(a: seq<Info>, b: seq<Info>, outer: seq<Tree>, c: nat)
    requires Inside(a, outer, c) && Agree(a, b, 0, c) && c < |b| && b[c].parent == a[c].parent
    ensures Inside(b, outer, c)
    decreases |outer|
  {
    if outer != [] {
      var t, p := outer[|outer| - 1], a[c].parent;
      RepAllFrame(a, b, p, a[p].kids[..|t.kids|], p + 1, t.kids);
      InsideFrame(a, b, outer[..|outer| - 1], p);
    }
  }

  /** The loop's state: top is being filled at node c. */
  predicate State(infos: seq<Info>, outer: seq<Tree>, top: Tree, c: nat) {
    Inside(infos, outer, c) && Rep(infos, c, top) && c + Size(top) == |infos|
  }

  function NewInfo(file: Option<string>, shuffle: bool, parent: nat): Info {
    Info(file, 0, shuffle, [], [], parent)
  }

  /** A new node as the last child of c. */
  function Added(infos: seq<Info>, c: nat, file: Option<string>, shuffle: bool): (r: seq<Info>)
    requires c < |infos|
    ensures |r| == |infos| + 1
  {
    infos[c := infos[c].(kids := infos[c].kids + [|infos|])] + [NewInfo(file, shuffle, c)]
  }

  lemma AddedAgrees(infos: seq<Info>, outer: seq<Tree>, top: Tree, c: nat, file: Option<string>, shuffle: bool,
      r: seq<Info>)
    requires State(infos, outer, top, c) && r == Added(infos, c, file, shuffle)
    ensures Inside(r, outer, c) && RepAll(r, c, infos[c].kids, c + 1, top.kids)
    ensures Rep(r, |infos|, Tree(file, 0, shuffle, [], []))
  {
    InsideFrame(infos, r, outer, c);
    RepAllFrame(infos, r, c, infos[c].kids, c + 1, top.kids);
  }

  /** An entry goes into the group being filled. */
  lemma EntryAdded(infos: seq<Info>, outer: seq<Tree>, top: Tree, c: nat, file: Option<string>, r: seq<Info>,
      top': Tree)
    requires State(infos, outer, top, c) && r == Added(infos, c, file, false) && top' == Attach(top, Leaf(file))
    ensures State(r, outer, top', c)
  {
    AddedAgrees(infos, outer, top, c, file, false, r);
    SizeAllSnoc(top.kids, Leaf(file), top'.kids);
    RepAllSnoc(r, c, infos[c].kids, c + 1, top.kids, |infos|, Leaf(file), r[c].kids, top'.kids);
  }

  /** A group is opened. */
  lemma GroupEntered(infos: seq<Info>, outer: seq<Tree>, top: Tree, c: nat, r: seq<Info>, outer': seq<Tree>)
    requires State(infos, outer, top, c) && r == Added(infos, c, None, top.shuffle) && outer' == outer + [top]
    ensures State(r, outer', Group(top.shuffle), |infos|)
  {
    AddedAgrees(infos, outer, top, c, None, top.shuffle, r);
    assert outer'[..|outer|] == outer && r[c].kids[..|top.kids|] == infos[c].kids;
  }

  /** The group being filled is closed. */
  lemma GroupLeft(infos: seq<Info>, outer: seq<Tree>, top: Tree, c: nat, t: Tree, t': Tree)
    requires State(infos, outer, top, c) && outer != [] && t == outer[|outer| - 1] && t' == Attach(t, top)
    ensures State(infos, outer[..|outer| - 1], t', infos[c].parent)
  {
    var p := infos[c].parent;
    SizeAllSnoc(t.kids, top, t'.kids);
    RepAllSnoc(infos, p, infos[p].kids[..|t.kids|], p + 1, t.kids, c, top, infos[p].kids, t'.kids);
  }

  lemma InsideRoot(infos: seq<Info>, outer: seq<Tree>, c: nat)
    requires Inside(infos, outer, c)
    ensures c == 0 <==> outer == []
  {
  }

  /** What is said of the group being filled itself. */
  lemma TopChanged(infos: seq<Info>, outer: seq<Tree>, top: Tree, c: nat, i: Info, r: seq<Info>, top': Tree)
    requires State(infos, outer, top, c) && i.kids == infos[c].kids && i.parent == infos[c].parent && r == infos[c := i]
    requires top'.kids == top.kids && Attrs(i, top')
    ensures State(r, outer, top', c)
  {
    InsideFrame(infos, r, outer, c);
    RepAllFrame(infos, r, c, infos[c].kids, c + 1, top.kids);
  }

  /** What is said of the last entry in it. */
  lemma LastChanged(infos: seq<Info>, outer: seq<Tree>, top: Tree, c: nat, k: nat, i: Info, r: seq<Info>, kid: Tree,
      top': Tree)
    requires State(infos, outer, top, c) && top.kids != [] && |infos[c].kids| == |top.kids|
        && k == infos[c].kids[|top.kids| - 1] < |infos|
    requires i.kids == infos[k].kids && i.parent == infos[k].parent && r == infos[k := i]
    requires kid.kids == LastKid(top).kids && Attrs(i, kid) && top' == WithLastKid(top, kid)
    ensures State(r, outer, top', c)
  {
    var n, ks := |top.kids| - 1, infos[c].kids;
    RepAllLast(infos, c, ks, c + 1, top.kids);
    InsideFrame(infos, r, outer, c);
    LastReplaced(infos, c, ks, k, r, kid, top.kids[..n], top'.kids);
  }

  lemma LastReplaced(infos: seq<Info>, c: nat, ks: seq<nat>, k: nat, r: seq<Info>, kid: Tree, ts: seq<Tree>,
      ts': seq<Tree>)
    requires |ks| == |ts| + 1 && ks[|ts|] == k == c + 1 + SizeAll(ts) < |infos| && ts' == ts + [kid]
    requires RepAll(infos, c, ks[..|ts|], c + 1, ts) && RepAll(infos, k, infos[k].kids, k + 1, kid.kids)
    requires |r| == |infos| && infos[k].parent == c && r[k].parent == c && r[k].kids == infos[k].kids
        && Attrs(r[k], kid)
    requires k + Size(kid) <= |r| && forall j | 0 <= j < |r| && j != k :: r[j] == infos[j]
    ensures RepAll(r, c, ks, c + 1, ts') && SizeAll(ts') == SizeAll(ts) + Size(kid)
  {
    RepAllFrame(infos, r, c, ks[..|ts|], c + 1, ts);
    RepAllFrame(infos, r, k, infos[k].kids, k + 1, kid.kids);
    assert ks == ks[..|ts|] + [k];
    SizeAllSnoc(ts, kid, ts');
    RepAllSnoc(r, c, ks[..|ts|], c + 1, ts, k, kid, ks, ts');
  }

  /** The last entry of the group being filled, and whether it is a group that holds something. */
  lemma LastEntry(infos: seq<Info>, outer: seq<Tree>, top: Tree, c: nat)
    requires State(infos, outer, top, c)
    ensures |infos[c].kids| == |top.kids|
    ensures top.kids != [] ==> var k := infos[c].kids[|top.kids| - 1];
      c < k < |infos| && infos[k].parent == c && Attrs(infos[k], LastKid(top))
          && (infos[k].kids != [] <==> AfterGroup(top))
  {
    assert Rep(infos, c, top) && RepAll(infos, c, infos[c].kids, c + 1, top.kids);
    if top.kids != [] {
      RepAllLast(infos, c, infos[c].kids, c + 1, top.kids);
      var k := infos[c].kids[|top.kids| - 1];
      assert RepAll(infos, k, infos[k].kids, k + 1, LastKid(top).kids);
    }
  }

  /** At the end of the line all groups are closed. */
  lemma {:induction false} AllClosed(infos: seq<Info>, outer: seq<Tree>, top: Tree, c: nat)
    requires State(infos, outer, top, c)
    ensures Rep(infos, 0, CloseAll(outer, top)) && Size(CloseAll(outer, top)) == |infos|
    decreases |outer|
  {
    if outer != [] {
      var t := outer[|outer| - 1];
      GroupLeft(infos, outer, top, c, t, Attach(t, top));
      AllClosed(infos, outer[..|outer| - 1], Attach(t, top), infos[c].parent);
    }
  }
}

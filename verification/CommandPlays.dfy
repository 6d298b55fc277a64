/** From the command line to the files that are played: parser, clean-up and iterator together. */
module CommandPlays {
  import opened Util
  import opened ConfigModel
  import opened PlayTrees
  import opened PlayTreeLists
  import opened PlayTreeNodes
  import opened IterModel
  import opened IterTheorems
  import opened IterFiles
  import opened PlayTreeCleanup
  import opened PlayTreePruned
  import opened PlayTreeIterator
  import opened CommandLine
  import opened CommandNodes
  import opened CommandParser
  import opened CommandShape

  // ---------------------------------------------------------------- what a tree plays, by value

  function Times(files: seq<string>, n: nat): seq<string> {
    if n == 0 then [] else files + Times(files, n - 1)
  }

  /** A file plays itself; a group plays its members in turn, as often as its loop says, once at least. */
  function FilesOfTree(t: Tree): seq<string>
    decreases t, 1
  {
    if t.file.Some? then [t.file.value] else Times(FilesOfTrees(t.kids), Max(1, t.loop))
  }

  function FilesOfTrees(ts: seq<Tree>): seq<string>
    decreases ts, 0
  {
    if ts == [] then [] else FilesOfTree(ts[0]) + FilesOfTrees(ts[1..])
  }

  lemma {:induction false} FilesConcat(p: Playlist, a: seq<PlayTree>, b: seq<PlayTree>)
    ensures FilesOf(p, a + b) == FilesOf(p, a) + FilesOf(p, b)
    decreases a
  {
    if a == [] {
      assert a + b == b;
    } else {
      assert (a + b)[1..] == a[1..] + b;
      FilesConcat(p, a[1..], b);
    }
  }

  lemma {:induction false} FilesRepeat(p: Playlist, a: seq<PlayTree>, n: nat)
    ensures FilesOf(p, Repeat(a, n)) == Times(FilesOf(p, a), n)
  {
    if n > 0 {
      FilesRepeat(p, a, n - 1);
      FilesConcat(p, a, Repeat(a, n - 1));
    }
  }

  /** The playlist names the files, and the counters are the loops, of the numbered nodes. */
  ghost predicate Carries(infos: seq<Info>, objs: seq<PlayTree>, s: Shape, p: Playlist, loops: map<PlayTree, int>) {
    && Tidy(infos, objs) && s == ShapeOf(infos, objs) && ShapeOk(s) && loops.Keys == s.kids.Keys
    && (forall n: nat {:trigger infos[n].loop} | n < |infos| :: objs[n] in loops && loops[objs[n]] == infos[n].loop)
    && (forall n: nat {:trigger infos[n].file} | n < |infos| && infos[n].file.Some? ::
          objs[n] in p.files && p.files[objs[n]] == [infos[n].file.value])
  }

  /** Node n's part of the shape. */
  lemma NodeFacts(infos: seq<Info>, objs: seq<PlayTree>, s: Shape, n: nat)
    requires Tidy(infos, objs) && s == ShapeOf(infos, objs) && n < |infos|
    ensures objs[n] in s.kids && (objs[n] in s.entries <==> infos[n].file.Some?)
    ensures KidsOk(infos, n) && s.kids[objs[n]] == KidsOf(infos, objs, n)
  {
    NumberOf(objs, n);
    assert KidsOk(infos, n);
  }

  /** Object o and what is below it are the tree t. */
  ghost predicate Means(s: Shape, p: Playlist, loops: map<PlayTree, int>, o: PlayTree, t: Tree)
    decreases t
  {
    && o in s.kids && o in loops && |s.kids[o]| == |t.kids| && (o in s.entries <==> t.file.Some?)
    && loops[o] == t.loop && (t.file.Some? ==> o in p.files && p.files[o] == [t.file.value])
    && forall i {:trigger t.kids[i]} | 0 <= i < |t.kids| :: Means(s, p, loops, s.kids[o][i], t.kids[i])
  }

  /** The number of the j-th child. */
  lemma {:induction false} ChildNumber(infos: seq<Info>, n: nat, ks: seq<nat>, from: nat, ts: seq<Tree>, j: nat)
    requires RepAll(infos, n, ks, from, ts) && j < |ts|
    ensures j < |ks| && Rep(infos, ks[j], ts[j])
    decreases ts
  {
    if j > 0 { ChildNumber(infos, n, ks[1..], from + Size(ts[0]), ts[1..], j - 1); }
  }

  /** The numbered nodes' objects are the trees that the numbers are. */
  lemma {:induction false} RepMeans(infos: seq<Info>, objs: seq<PlayTree>, s: Shape, p: Playlist,
      loops: map<PlayTree, int>, n: nat, t: Tree)
    requires Carries(infos, objs, s, p, loops) && Rep(infos, n, t)
    ensures Means(s, p, loops, objs[n], t)
    decreases t
  {
    NodeFacts(infos, objs, s, n);
    var kids, ks := s.kids[objs[n]], infos[n].kids;
    forall i | 0 <= i < |t.kids| ensures Means(s, p, loops, kids[i], t.kids[i]) {
      ChildNumber(infos, n, ks, n + 1, t.kids, i);
      RepMeans(infos, objs, s, p, loops, ks[i], t.kids[i]);
    }
  }

  /** Flattening the linked tree visits the files of the tree it stands for. */
  lemma {:induction false} FlattenPlays(s: Shape, p: Playlist, loops: map<PlayTree, int>, o: PlayTree, t: Tree)
    requires ShapeOk(s) && loops.Keys == s.kids.Keys && Means(s, p, loops, o, t)
    ensures FilesOf(p, Flatten(s, loops, o)) == FilesOfTree(t)
    decreases t, |t.kids| + 1
  {
    if t.file.Some? {
      assert [o][1..] == [];
    } else {
      assert t.kids[0..] == t.kids;
      KidsPlay(s, p, loops, o, t, 0, t.kids);
      FilesRepeat(p, FlattenFrom(s, loops, o, 0), Max(1, t.loop));
    }
  }

  lemma {:induction false} KidsPlay(s: Shape, p: Playlist, loops: map<PlayTree, int>, o: PlayTree, t: Tree, i: nat,
      rest: seq<Tree>)
    requires ShapeOk(s) && loops.Keys == s.kids.Keys && Means(s, p, loops, o, t) && i <= |t.kids| && rest == t.kids[i..]
    ensures FilesOf(p, FlattenFrom(s, loops, o, i)) == FilesOfTrees(rest)
    decreases t, |t.kids| - i
  {
    if i < |t.kids| {
      var kid, more := s.kids[o][i], rest[1..];
      assert rest[0] == t.kids[i] && more == t.kids[i + 1..];
      FlattenPlays(s, p, loops, kid, t.kids[i]);
      KidsPlay(s, p, loops, o, t, i + 1, more);
      FilesConcat(p, Flatten(s, loops, kid), FlattenFrom(s, loops, o, i + 1));
    }
  }

  // ---------------------------------------------------------------- the whole way

  /** The cleaned tree's playlist carries what the numbered nodes say. */
  lemma CleanedCarries(infos: seq<Info>, objs: seq<PlayTree>, s: Shape, p: Playlist)
    requires Represents(infos, objs) && Tidy(infos, objs) && s == ShapeOf(infos, objs) && ShapeOk(s)
        && p == ListOf(Pruned(s))
    ensures Carries(infos, objs, s, p, LoopsOf(s))
  {
    forall n: nat | n < |infos| ensures objs[n] in s.kids && objs[n].loop == infos[n].loop {
      NodeFacts(infos, objs, s, n);
      assert NodeIs(infos, objs, n);
    }
    forall n: nat | n < |infos| && infos[n].file.Some?
      ensures objs[n] in p.files && p.files[objs[n]] == [infos[n].file.value] {
      NodeFacts(infos, objs, s, n);
      assert NodeIs(infos, objs, n) && Worth(s, objs[n]);
    }
  }

  lemma FilesOfNode(infos: seq<Info>, objs: seq<PlayTree>, s: Shape, n: nat)
    requires Represents(infos, objs) && Tidy(infos, objs) && s == ShapeOf(infos, objs) && n < |infos|
    ensures objs[n].files != [] <==> objs[n] in s.entries
  {
    NodeFacts(infos, objs, s, n);
    assert NodeIs(infos, objs, n);
  }

  ghost predicate FilesAgree(s: Shape)
    reads s.kids.Keys`files
  {
    forall o | o in s.kids :: o.files != [] <==> o in s.entries
  }

  lemma ParsedFilesAgree(infos: seq<Info>, objs: seq<PlayTree>, s: Shape)
    requires Represents(infos, objs) && Tidy(infos, objs) && s == ShapeOf(infos, objs)
    ensures FilesAgree(s)
  {
    forall o | o in s.kids ensures o.files != [] <==> o in s.entries { FilesOfNode(infos, objs, s, IndexOf(objs, o)); }
  }

  lemma CleanedFilesOk(s: Shape, p: Playlist)
    requires ShapeOk(s) && HasFile(s, s.root) && FilesAgree(s) && p == ListOf(Pruned(s))
    ensures FilesOk(p)
  {
    PrunedOk(s);
  }

  lemma LoopsRemain(s: Shape, loops: map<PlayTree, int>)
    requires ShapeOk(s) && HasFile(s, s.root) && loops == LoopsOf(Pruned(s))
    ensures loops == Remaining(s, LoopsOf(s)) && ShapeOk(Pruned(s)) && loops.Keys == Pruned(s).kids.Keys
  {
    PrunedOk(s);
  }

  lemma RootIsGroup(argv: seq<string>, env: Env, infos: seq<Info>, objs: seq<PlayTree>, s: Shape, t: Tree)
    requires Tidy(infos, objs) && Rep(infos, 0, t) && Meaning(argv, env) == Built(t) && s == ShapeOf(infos, objs)
    ensures s.root == objs[0] && s.root !in s.entries
  {
    ReadGroupProper(argv, ROOT, BEGIN, env);
    NodeFacts(infos, objs, s, 0);
  }

  /** Flattening a cleaned tree gives the files of the tree it stood for before. */
  lemma PrunedPlays(s: Shape, p: Playlist, loops: map<PlayTree, int>, every: map<PlayTree, int>, t: Tree)
    requires ShapeOk(s) && HasFile(s, s.root) && every.Keys == s.kids.Keys && loops == Remaining(s, every)
    requires Means(s, p, every, s.root, t)
    ensures ShapeOk(Pruned(s)) && s.root in Pruned(s).kids && loops.Keys == Pruned(s).kids.Keys
    ensures FilesOf(p, Flatten(Pruned(s), loops, s.root)) == FilesOfTree(t)
  {
    PrunedFlattens(s, every, s.root);
    FlattenPlays(s, p, every, s.root, t);
  }

  lemma RootMeans(infos: seq<Info>, objs: seq<PlayTree>, s: Shape, p: Playlist, t: Tree)
    requires Represents(infos, objs) && Tidy(infos, objs) && s == ShapeOf(infos, objs) && ShapeOk(s)
        && p == ListOf(Pruned(s))
    requires Rep(infos, 0, t)
    ensures Means(s, p, LoopsOf(s), objs[0], t)
  {
    CleanedCarries(infos, objs, s, p);
    RepMeans(infos, objs, s, p, LoopsOf(s), 0, t);
  }

  /** No group of the tree is shuffled or loops for ever. */
  predicate Plain(t: Tree) {
    !t.shuffle && t.loop >= 0 && forall i | 0 <= i < |t.kids| :: Plain(t.kids[i])
  }

  lemma {:induction false} RepPlain(infos: seq<Info>, n: nat, t: Tree, m: nat)
    requires Rep(infos, n, t) && Plain(t) && n <= m < n + Size(t)
    ensures !infos[m].shuffle && infos[m].loop >= 0
    decreases t, 1
  {
    if m > n { RepAllPlain(infos, n, infos[n].kids, n + 1, t.kids, m); }
  }

  lemma {:induction false} RepAllPlain(infos: seq<Info>, parent: nat, ks: seq<nat>, s: nat, ts: seq<Tree>, m: nat)
    requires RepAll(infos, parent, ks, s, ts) && (forall i | 0 <= i < |ts| :: Plain(ts[i])) && s <= m < s + SizeAll(ts)
    ensures m < |infos| && !infos[m].shuffle && infos[m].loop >= 0
    decreases ts, 0
  {
    if m < s + Size(ts[0]) {
      RepPlain(infos, s, ts[0], m);
    } else {
      RepAllPlain(infos, parent, ks[1..], s + Size(ts[0]), ts[1..], m);
    }
  }

  /** A plain tree makes a plain list, with no node marked as played. */
  lemma ParsedPlain(infos: seq<Info>, objs: seq<PlayTree>, s: Shape, t: Tree)
    requires Represents(infos, objs) && Tidy(infos, objs) && Rep(infos, 0, t) && Size(t) == |infos| && Plain(t)
    requires s == ShapeOf(infos, objs) && ShapeOk(s)
    ensures InOrder(ListOf(Pruned(s))) && NoEndlessLoop(LoopsOf(Pruned(s))) && PlayedOf(Pruned(s)) == {}
  {
    forall o | o in s.kids ensures !o.rnd && o.loop >= 0 && !o.played {
      var n := IndexOf(objs, o);
      assert NodeIs(infos, objs, n);
      RepPlain(infos, 0, t, n);
    }
  }

  lemma ParsedMeans(argv: seq<string>, env: Env, infos: seq<Info>, objs: seq<PlayTree>, s: Shape, p: Playlist, t: Tree)
    requires Meaning(argv, env) == Built(t) && Represents(infos, objs) && Parented(infos) && Rep(infos, 0, t)
    requires s == ShapeOf(infos, objs) && ShapeOk(s) && p == ListOf(Pruned(s))
    ensures FilesAgree(s) && s.root !in s.entries && Means(s, p, LoopsOf(s), s.root, t)
  {
    RepresentsTidy(infos, objs);
    ParsedFilesAgree(infos, objs, s);
    RootIsGroup(argv, env, infos, objs, s, t);
    RootMeans(infos, objs, s, p, t);
  }

  /** A tree without a file plays nothing. */
  lemma {:induction false} NoFilePlaysNothing(s: Shape, p: Playlist, loops: map<PlayTree, int>, o: PlayTree, t: Tree)
    requires ShapeOk(s) && o in s.kids && Means(s, p, loops, o, t) && !HasFile(s, o)
    ensures FilesOfTree(t) == []
    decreases t
  {
    forall i | 0 <= i < |t.kids| ensures FilesOfTree(t.kids[i]) == [] {
      assert ChildOk(s, o, i);
      NoFilePlaysNothing(s, p, loops, s.kids[o][i], t.kids[i]);
    }
    NothingOfNothing(t.kids);
    NothingTimes(Max(1, t.loop));
  }

  lemma {:induction false} NothingOfNothing(ts: seq<Tree>)
    requires forall i | 0 <= i < |ts| :: FilesOfTree(ts[i]) == []
    ensures FilesOfTrees(ts) == []
  {
    if ts != [] { NothingOfNothing(ts[1..]); }
  }

  lemma {:induction false} NothingTimes(n: nat)
    ensures Times([], n) == []
  {
    if n > 0 { NothingTimes(n - 1); }
  }

  /** What an iterator gives that has been made on a cleaned tree: the files of the tree, each in its turn, and
      then none for ever. */
  lemma CleanedPlays(s: Shape, p: Playlist, every: map<PlayTree, int>, t: Tree, start: Iter, k: nat)
    returns (first: Iter)
    requires ShapeOk(s) && HasFile(s, s.root) && every.Keys == s.kids.Keys && s.root !in s.entries
        && Means(s, p, every, s.root, t)
    requires p.shape == Pruned(s) && start.loops == Remaining(s, every) && PlainStart(p, start) && FilesOk(p)
    ensures Ready(p, start) && Step(p, start, 0, false) == (first, ENTRY)
    ensures Due(p, first, FilesOfTree(t)) && Reads(PlainReader(p), first, k) == Given(FilesOfTree(t), k)
  {
    PrunedPlays(s, p, start.loops, every, t);
    first := FilesInOrder(p, start, k);
  }

  // ---------------------------------------------------------------- the whole way, on the objects themselves

  /** Facts about a parsed tree that outlast its cleaning. */
  ghost predicate Parsed(s: Shape, p: Playlist, every: map<PlayTree, int>, loops: map<PlayTree, int>,
      played: set<PlayTree>, t: Tree) {
    && ShapeOk(s) && s.root !in s.entries && every.Keys == s.kids.Keys && Means(s, p, every, s.root, t)
    && played == {}
    && (HasFile(s, s.root) ==>
          p.shape == Pruned(s) && loops == Remaining(s, every) && FilesOk(p) && InOrder(p) && NoEndlessLoop(loops))
  }

  lemma ParsedCleaned(infos: seq<Info>, objs: seq<PlayTree>, s: Shape, t: Tree)
    requires Represents(infos, objs) && Tidy(infos, objs) && Rep(infos, 0, t) && Size(t) == |infos| && Plain(t)
    requires s == ShapeOf(infos, objs) && ShapeOk(s) && FilesAgree(s)
    ensures PlayedOf(Pruned(s)) == {}
    ensures HasFile(s, s.root) ==>
      var p, loops := ListOf(Pruned(s)), LoopsOf(Pruned(s));
      loops == Remaining(s, LoopsOf(s)) && FilesOk(p) && InOrder(p) && NoEndlessLoop(loops)
  {
    ParsedPlain(infos, objs, s, t);
    if HasFile(s, s.root) {
      CleanedFilesOk(s, ListOf(Pruned(s)));
      LoopsRemain(s, LoopsOf(Pruned(s)));
    }
  }

  lemma ParsedIsParsed(argv: seq<string>, env: Env, infos: seq<Info>, objs: seq<PlayTree>, s: Shape, t: Tree)
    requires Meaning(argv, env) == Built(t) && Represents(infos, objs) && Rep(infos, 0, t) && Size(t) == |infos|
        && Plain(t)
    requires Parented(infos) && s == ShapeOf(infos, objs) && ShapeOk(s)
    ensures Parsed(s, ListOf(Pruned(s)), LoopsOf(s), LoopsOf(Pruned(s)), PlayedOf(Pruned(s)), t)
  {
    RepresentsTidy(infos, objs);
    var p := ListOf(Pruned(s));
    assert FilesAgree(s) && s.root !in s.entries && Means(s, p, LoopsOf(s), s.root, t) by {
      ParsedMeans(argv, env, infos, objs, s, p, t);
    }
    ParsedCleaned(infos, objs, s, t);
  }

  /** One call of pt_iter_get_file. */
  method GiveOne(iter: PlayTreeIter, ghost list: Playlist, ghost it: Iter, ghost unread: seq<string>, ghost base: int)
    returns (name: Option<string>, ghost next: Iter)
    requires iter.Walks(list, it, base) && Due(list, it, unread)
    modifies iter, iter.Nodes()`played, iter.root`loop
    ensures name == if unread == [] then None else Some(unread[0])
    ensures iter.Walks(list, next, base) && Due(list, next, if unread == [] then [] else unread[1..])
  {
    ghost var file;
    next, file := NextFileReads(list, it);
    name := iter.NextFile(1, base);
  }

  /** Successive calls of it. */
  method GiveFiles(iter: PlayTreeIter, n: nat, ghost list: Playlist, ghost first: Iter, ghost all: seq<string>,
      ghost base: int)
    returns (given: seq<Option<string>>)
    requires iter.Walks(list, first, base) && Due(list, first, all)
    modifies iter, iter.Nodes()`played, iter.root`loop
    ensures given == Given(all, n)
  {
    given := [];
    ghost var it, unread := first, all;
    var k := n;
    GivenStarts(all, n);
    while k > 0
      invariant 0 <= k <= n && iter.Walks(list, it, base) && Due(list, it, unread)
      invariant GivesRest(given, unread, k, all, n)
    {
      var name;
      name, it := GiveOne(iter, list, it, unread, base);
      k := k - 1;
      GivenMore(given, name, unread, k, all, n);
      given := given + [name];
      unread := if unread == [] then [] else unread[1..];
    }
    GivenAll(given, unread, all, n);
  }

  /** What has been given and what the next k calls are to give is what n calls give. */
  predicate GivesRest(given: seq<Option<string>>, unread: seq<string>, k: nat, all: seq<string>, n: nat) {
    given + Given(unread, k) == Given(all, n)
  }

  lemma GivenStarts(all: seq<string>, n: nat)
    ensures GivesRest([], all, n, all, n)
  {
    assert [] + Given(all, n) == Given(all, n);
  }

  lemma GivenMore(given: seq<Option<string>>, name: Option<string>, unread: seq<string>, k: nat, all: seq<string>,
      n: nat)
    requires name == (if unread == [] then None else Some(unread[0])) && GivesRest(given, unread, k + 1, all, n)
    ensures GivesRest(given + [name], if unread == [] then [] else unread[1..], k, all, n)
  {
    assert Given(unread, k + 1) == [name] + Given(if unread == [] then [] else unread[1..], k);
  }

  lemma GivenAll(given: seq<Option<string>>, unread: seq<string>, all: seq<string>, n: nat)
    requires GivesRest(given, unread, 0, all, n)
    ensures given == Given(all, n)
  {
    assert given + Given(unread, 0) == given;
  }

  lemma {:induction false} GivenNothing(n: nat)
    ensures Given([], n) == Nones(n)
  {
    if n > 0 {
      GivenNothing(n - 1);
      assert Nones(n) == [None] + Nones(n - 1);
    }
  }

  function Nones(n: nat): seq<Option<string>> {
    seq(n, _ => None)
  }

  /** m_config_parse_mp_command_line, pt_iter_create, and then pt_iter_get_file time after time, on the objects
      themselves: the files that come out are those that the brackets of the command line mean, in order, and then
      none for ever; for a command line without shuffled groups and endless loops.  A refused one gives nothing. */
  method PlayCommandLine(argv: seq<string>, env: Env, config: Option<Cfg>, draws: seq<nat>, n: nat, ghost base: int)
    returns (given: seq<Option<string>>)
    requires ConfigOk(config, base, base) && (Meaning(argv, env).Built? ==> Plain(Meaning(argv, env).tree))
    ensures given == Given(if Meaning(argv, env).Built? then FilesOfTree(Meaning(argv, env).tree) else [], n)
  {
    var root, infos, objs := ParseCommandLine(argv, env);
    GivenNothing(n);
    if root == null { return Nones(n); }
    ghost var t := Meaning(argv, env).tree;
    ParsedIsLinked(argv, env, infos, objs);
    ghost var s := ShapeOf(infos, objs);
    ghost var every := LoopsOf(s);
    ParsedIsParsed(argv, env, infos, objs, s, t);
    var iter, list, start := Create(root, config, draws, s, base);
    if !HasFile(s, s.root) {
      NoFilePlaysNothing(s, list, every, s.root, t);
    } else {
      ghost var first := CleanedPlays(s, list, every, t, start, n);
    }
    if iter == null { return Nones(n); }
    given := GiveFiles(iter, n, list, iter.View(), FilesOfTree(t), base);
  }
}

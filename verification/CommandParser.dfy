/** m_config_parse_mp_command_line of parser-mpcmd.c: the loop that links a play tree together. */
module CommandParser {
  import opened Util
  import opened PlayTrees
  import opened PlayTreeLists
  import opened Strtol
  import opened CommandLine
  import opened CommandNodes

  // ---------------------------------------------------------------- the numbered nodes in the heap

  ghost predicate Below(ks: seq<nat>, n: nat) {
    forall i | 0 <= i < |ks| :: ks[i] < n
  }

  /** The objects of some nodes. */
  ghost function Objects(objs: seq<PlayTree>, ks: seq<nat>): (r: seq<PlayTree>)
    requires Below(ks, |objs|)
  {
    seq(|ks|, i requires 0 <= i < |ks| => objs[ks[i]])
  }

  /** A node's children come after it and know it. */
  ghost predicate KidsOk(infos: seq<Info>, n: nat)
    requires n < |infos|
  {
    Below(infos[n].kids, |infos|) && forall i | 0 <= i < |infos[n].kids| ::
        n < infos[n].kids[i] && infos[infos[n].kids[i]].parent == n
  }

  ghost predicate Numbered(infos: seq<Info>) {
    forall n: nat {:trigger KidsOk(infos, n)} | n < |infos| :: KidsOk(infos, n)
  }

  /** What a node carries besides its links. */
  datatype Load = Load(
    files: seq<string>, entryType: EntryType, loop: int, rnd: bool, params: Option<seq<Param>>, played: bool)

  /** The object carries what the node says, and is not marked as played. */
  ghost predicate Says(o: PlayTree, i: Info)
    reads o`files, o`entryType, o`loop, o`rnd, o`params, o`played
  {
    Load(o.files, o.entryType, o.loop, o.rnd, o.params, o.played)
      == Load(if i.file.Some? then [i.file.value] else [], if i.file.Some? then ENTRY_FILE else ENTRY_NODE,
              i.loop, i.shuffle, if i.params == [] then None else Some(i.params), false)
  }

  /** Object n has the fields and the children of node n. */
  ghost predicate NodeIs(infos: seq<Info>, objs: seq<PlayTree>, n: nat)
    requires n < |infos| && |objs| == |infos| && KidsOk(infos, n)
    reads {objs[n]}`files, {objs[n]}`entryType, {objs[n]}`loop, {objs[n]}`rnd, {objs[n]}`params, {objs[n]}`played,
        {objs[n]}`child
    reads Objects(objs, infos[n].kids)`prev, Objects(objs, infos[n].kids)`next, Objects(objs, infos[n].kids)`parent
  {
    Says(objs[n], infos[n]) && Chain(Objects(objs, infos[n].kids), objs[n])
  }

  ghost predicate Alone(o: PlayTree)
    reads o`prev, o`next, o`parent
  {
    o.prev == null && o.next == null && o.parent == null
  }

  /** The objects are the nodes, all different, linked as the nodes say. */
  ghost predicate Represents(infos: seq<Info>, objs: seq<PlayTree>)
    reads objs`files, objs`entryType, objs`loop, objs`rnd, objs`params, objs`played, objs`child, objs`prev, objs`next,
        objs`parent
  {
    && 0 < |objs| == |infos| && NoRepeats(objs) && Numbered(infos) && Alone(objs[0])
    && forall n: nat {:trigger NodeIs(infos, objs, n)} | n < |infos| :: NodeIs(infos, objs, n)
  }

  // ---------------------------------------------------------------- linking an entry in

  lemma AddedNumbered(infos: seq<Info>, c: nat, file: Option<string>, shuffle: bool)
    requires Numbered(infos) && c < |infos|
    ensures Numbered(Added(infos, c, file, shuffle))
  {
    var r := Added(infos, c, file, shuffle);
    forall n: nat | n < |r| ensures KidsOk(r, n) { assert n < |infos| ==> KidsOk(infos, n); }
  }

  ghost function KidsOf(infos: seq<Info>, objs: seq<PlayTree>, n: nat): (r: seq<PlayTree>)
    requires n < |infos| == |objs| && KidsOk(infos, n)
    ensures |r| == |infos[n].kids|
  {
    Objects(objs, infos[n].kids)
  }

  /** An entry that is not linked in yet. */
  ghost predicate Unlinked(entry: PlayTree, i: Info)
    reads entry`files, entry`entryType, entry`loop, entry`rnd, entry`params, entry`played, entry`child, entry`prev,
        entry`next, entry`parent
  {
    Says(entry, i) && entry.child == null && Alone(entry)
  }

  /** No object is a child of two nodes. */
  lemma KidsApart(infos: seq<Info>, objs: seq<PlayTree>, n: nat, c: nat, i: nat)
    requires |objs| == |infos| && NoRepeats(objs) && n < |infos| && c < |infos| && n != c && KidsOk(infos, n)
        && KidsOk(infos, c)
    requires i < |infos[n].kids|
    ensures KidsOf(infos, objs, n)[i] !in KidsOf(infos, objs, c)
  {
    var k, kids := infos[n].kids[i], KidsOf(infos, objs, c);
    forall j | 0 <= j < |kids| ensures kids[j] != objs[k] { assert infos[infos[c].kids[j]].parent == c; }
  }

  lemma ObjectsGrow(objs: seq<PlayTree>, ks: seq<nat>, entry: PlayTree)
    requires Below(ks, |objs|)
    ensures Objects(objs + [entry], ks) == Objects(objs, ks)
    ensures Objects(objs + [entry], ks + [|objs|]) == Objects(objs, ks) + [entry]
  {
  }

  /** With the entry linked to the children of c, and all else as it was, there is one more node. */
  lemma AllLinked(infos: seq<Info>, objs: seq<PlayTree>, c: nat, entry: PlayTree, file: Option<string>, shuffle: bool)
    requires 0 < |objs| == |infos| && NoRepeats(objs) && Numbered(infos) && Alone(objs[0]) && c < |infos|
        && entry !in objs
    requires forall n: nat {:trigger NodeIs(infos, objs, n)} | n < |infos| && n != c ::
        KidsOk(infos, n) && NodeIs(infos, objs, n)
    requires KidsOk(infos, c) && Says(objs[c], infos[c]) && Chain(KidsOf(infos, objs, c) + [entry], objs[c])
    requires Says(entry, NewInfo(file, shuffle, c)) && entry.child == null
    ensures Represents(Added(infos, c, file, shuffle), objs + [entry])
  {
    AddedNumbered(infos, c, file, shuffle);
    var r, all := Added(infos, c, file, shuffle), objs + [entry];
    forall n: nat | n < |r| ensures KidsOk(r, n) && NodeIs(r, all, n) {
      assert KidsOk(r, n);
      if n < |infos| {
        assert KidsOk(infos, n);
        ObjectsGrow(objs, infos[n].kids, entry);
        if n != c { assert NodeIs(infos, objs, n); }
      }
    }
  }

  /** add_entry: the first child of the group, or the one after the last. */
  method AddEntry(lastParent: PlayTree, lastEntry: PlayTree?, entry: PlayTree,
                  ghost infos: seq<Info>, ghost objs: seq<PlayTree>, ghost c: nat, ghost file: Option<string>,
                  ghost shuffle: bool)
    requires Represents(infos, objs) && c < |infos| && lastParent == objs[c] && entry !in objs
    requires KidsOk(infos, c) && lastEntry == At(KidsOf(infos, objs, c), |infos[c].kids| - 1)
    requires Unlinked(entry, NewInfo(file, shuffle, c))
    modifies lastParent`child, objs`next, entry`parent, entry`prev, entry`next
    ensures Represents(Added(infos, c, file, shuffle), objs + [entry])
  {
    ghost var kids := KidsOf(infos, objs, c);
    assert NodeIs(infos, objs, c);
    if lastEntry == null {
      assert kids == [] && InList([entry], 0, null);
      SetChild(lastParent, entry, [], [entry], null);
      assert kids + [entry] == [entry];
    } else {
      assert entry !in kids;
      Append(lastEntry, entry, kids, lastParent);
    }
    forall n: nat | n < |infos| && n != c ensures KidsOk(infos, n) && NodeIs(infos, objs, n) {
      assert KidsOk(infos, n) && old(NodeIs(infos, objs, n));
      var ks := KidsOf(infos, objs, n);
      forall i | 0 <= i < |ks| ensures InList(ks, i, objs[n]) {
        assert old(InList(ks, i, objs[n]));
        KidsApart(infos, objs, n, c, i);
        assert ks[i] in objs;
      }
    }
    AllLinked(infos, objs, c, entry, file, shuffle);
  }

  // ---------------------------------------------------------------- what is said of a node

  lemma LoadChanged(infos: seq<Info>, objs: seq<PlayTree>, k: nat, i: Info)
    requires 0 < |objs| == |infos| && NoRepeats(objs) && Numbered(infos) && Alone(objs[0]) && k < |infos|
    requires i.kids == infos[k].kids && i.parent == infos[k].parent
    requires forall n: nat {:trigger NodeIs(infos, objs, n)} | n < |infos| && n != k ::
        KidsOk(infos, n) && NodeIs(infos, objs, n)
    requires KidsOk(infos, k) && Says(objs[k], i) && Chain(KidsOf(infos, objs, k), objs[k])
    ensures Represents(infos[k := i], objs)
  {
    var r := infos[k := i];
    forall n: nat | n < |r| ensures KidsOk(r, n) && NodeIs(r, objs, n) {
      assert KidsOk(infos, n);
      if n != k { assert NodeIs(infos, objs, n); }
    }
  }

  method PutLoop(pt: PlayTree, l: int, ghost infos: seq<Info>, ghost objs: seq<PlayTree>, ghost k: nat)
    requires Represents(infos, objs) && k < |infos| && pt == objs[k]
    modifies pt`loop
    ensures Represents(infos[k := infos[k].(loop := l)], objs)
  {
    assert KidsOk(infos, k) && NodeIs(infos, objs, k);
    pt.loop := l;
    forall n: nat | n < |infos| && n != k ensures KidsOk(infos, n) && NodeIs(infos, objs, n) {
      assert KidsOk(infos, n) && old(NodeIs(infos, objs, n)) && objs[n] != objs[k];
    }
    LoadChanged(infos, objs, k, infos[k].(loop := l));
  }

  method PutShuffle(pt: PlayTree, on: bool, ghost infos: seq<Info>, ghost objs: seq<PlayTree>, ghost k: nat)
    requires Represents(infos, objs) && k < |infos| && pt == objs[k]
    modifies pt`rnd
    ensures Represents(infos[k := infos[k].(shuffle := on)], objs)
  {
    assert KidsOk(infos, k) && NodeIs(infos, objs, k);
    pt.rnd := on;
    forall n: nat | n < |infos| && n != k ensures KidsOk(infos, n) && NodeIs(infos, objs, n) {
      assert KidsOk(infos, n) && old(NodeIs(infos, objs, n)) && objs[n] != objs[k];
    }
    LoadChanged(infos, objs, k, infos[k].(shuffle := on));
  }

  /** play_tree_set_param on a node of the line */
  method PutParam(pt: PlayTree, p: Param, ghost infos: seq<Info>, ghost objs: seq<PlayTree>, ghost k: nat)
    requires Represents(infos, objs) && k < |infos| && pt == objs[k]
    modifies pt`params
    ensures Represents(infos[k := infos[k].(params := infos[k].params + [p])], objs)
  {
    assert KidsOk(infos, k) && NodeIs(infos, objs, k);
    SetParam(pt, p.name, p.value);
    forall n: nat | n < |infos| && n != k ensures KidsOk(infos, n) && NodeIs(infos, objs, n) {
      assert KidsOk(infos, n) && old(NodeIs(infos, objs, n)) && objs[n] != objs[k];
    }
    assert [] + [p] == [p];
    LoadChanged(infos, objs, k, infos[k].(params := infos[k].params + [p]));
  }

  // ---------------------------------------------------------------- the loop's state

  datatype Making = Making(infos: seq<Info>, objs: seq<PlayTree>, outer: seq<Tree>, top: Tree, c: nat)

  /** The group being filled is at lastParent, and lastEntry is the last child it has so far. */
  ghost predicate Filling(b: Making, lastParent: PlayTree, lastEntry: PlayTree?)
    reads b.objs`files, b.objs`entryType, b.objs`loop, b.objs`rnd, b.objs`params, b.objs`played, b.objs`child,
        b.objs`prev, b.objs`next, b.objs`parent
  {
    && Represents(b.infos, b.objs) && State(b.infos, b.outer, b.top, b.c) && KidsOk(b.infos, b.c)
    && lastParent == b.objs[b.c] && lastEntry == At(KidsOf(b.infos, b.objs, b.c), |b.infos[b.c].kids| - 1)
  }

  /** From b to b', only the group being filled has changed, and new nodes have been made. */
  ghost predicate Continues(b: Making, b': Making) {
    b'.outer == b.outer && b'.c == b.c && b.objs <= b'.objs
  }

  /** An entry for a file, or for none. */
  method NewEntry(file: Option<string>, ghost c: nat) returns (entry: PlayTree)
    ensures fresh(entry) && Unlinked(entry, NewInfo(file, false, c))
  {
    entry := new PlayTree();
    if file.Some? {
      entry.files := [file.value];
      entry.entryType := ENTRY_FILE;
    }
  }

  method FileEntry(lastParent: PlayTree, lastEntry: PlayTree?, file: Option<string>, ghost b: Making)
    returns (entry: PlayTree, ghost b': Making)
    requires Filling(b, lastParent, lastEntry)
    modifies lastParent`child, b.objs`next
    ensures Filling(b', lastParent, entry) && Continues(b, b') && b'.top == Attach(b.top, Leaf(file))
    ensures b'.objs == b.objs + [entry] && fresh(entry)
  {
    entry := NewEntry(file, b.c);
    AddEntry(lastParent, lastEntry, entry, b.infos, b.objs, b.c, file, false);
    ghost var r, top := Added(b.infos, b.c, file, false), Attach(b.top, Leaf(file));
    EntryAdded(b.infos, b.outer, b.top, b.c, file, r, top);
    b' := Making(r, b.objs + [entry], b.outer, top, b.c);
    assert KidsOk(r, b.c);
    ObjectsGrow(b.objs, b.infos[b.c].kids, entry);
  }

  lemma LeavesFrom(names: seq<string>, j: nat, rest: seq<Tree>, kids: seq<Tree>)
    requires j < |names| && rest == Leaves(names[j..])
    ensures rest != [] && rest[1..] == Leaves(names[j + 1..])
    ensures kids + [Leaf(Some(names[j]))] + rest[1..] == kids + rest
  {
    assert names[j..][1..] == names[j + 1..];
  }

  /** A file argument: one entry, or one for each title of a disc range. */
  method FileEntries(lastParent: PlayTree, lastEntry: PlayTree?, names: seq<string>, ghost b: Making)
    returns (last: PlayTree?, ghost b': Making)
    requires Filling(b, lastParent, lastEntry)
    modifies lastParent`child, b.objs`next
    ensures Filling(b', lastParent, last) && Continues(b, b') && b'.top == AddFiles(b.top, names)
    ensures forall i | |b.objs| <= i < |b'.objs| :: fresh(b'.objs[i])
  {
    if |names| == 0 {
      last, b' := FileEntry(lastParent, lastEntry, None, b);
    } else {
      last, b' := NamedEntries(lastParent, lastEntry, names, b);
    }
  }

  method NamedEntries(lastParent: PlayTree, lastEntry: PlayTree?, names: seq<string>, ghost b: Making)
    returns (last: PlayTree?, ghost b': Making)
    requires Filling(b, lastParent, lastEntry)
    modifies lastParent`child, b.objs`next
    ensures Filling(b', lastParent, last) && Continues(b, b') && b'.top == b.top.(kids := b.top.kids + Leaves(names))
    ensures forall i | |b.objs| <= i < |b'.objs| :: fresh(b'.objs[i])
  {
    var j := 0;
    last, b' := lastEntry, b;
    ghost var all, rest := b.top.kids + Leaves(names), Leaves(names);
    while j < |names|
      invariant 0 <= j <= |names| && rest == Leaves(names[j..])
      invariant Filling(b', lastParent, last) && Continues(b, b')
      invariant b'.top.kids + rest == all && b'.top == b.top.(kids := b'.top.kids)
      invariant forall i | |b.objs| <= i < |b'.objs| :: fresh(b'.objs[i])
    {
      LeavesFrom(names, j, rest, b'.top.kids);
      last, b' := FileEntry(lastParent, last, Some(names[j]), b');
      rest := rest[1..];
      j := j + 1;
    }
    assert rest == [] && b'.top.kids + rest == b'.top.kids;
  }

  /** An opening brace: a group, shuffled if the one around it is. */
  method OpenGroup(lastParent: PlayTree, lastEntry: PlayTree?, ghost b: Making)
    returns (entry: PlayTree, ghost b': Making)
    requires Filling(b, lastParent, lastEntry)
    modifies lastParent`child, b.objs`next
    ensures Filling(b', entry, null) && b'.outer == b.outer + [b.top] && b'.top == Group(b.top.shuffle)
    ensures b'.objs == b.objs + [entry] && fresh(entry)
  {
    entry := NewEntry(None, b.c);
    assert NodeIs(b.infos, b.objs, b.c);
    if lastParent.rnd { entry.rnd := true; }
    AddEntry(lastParent, lastEntry, entry, b.infos, b.objs, b.c, None, b.top.shuffle);
    ghost var r, outer := Added(b.infos, b.c, None, b.top.shuffle), b.outer + [b.top];
    GroupEntered(b.infos, b.outer, b.top, b.c, r, outer);
    b' := Making(r, b.objs + [entry], outer, Group(b.top.shuffle), |b.infos|);
    assert KidsOk(r, |b.infos|);
  }

  /** A closing brace, if a group is open. */
  method CloseGroup(lastParent: PlayTree, lastEntry: PlayTree?, ghost b: Making)
    returns (parent: PlayTree?, ghost b': Making)
    requires Filling(b, lastParent, lastEntry)
    ensures parent == null <==> b.outer == []
    ensures parent != null ==> var k := |b.outer| - 1;
      Filling(b', parent, lastParent) && b'.outer == b.outer[..k] && b'.top == Attach(b.outer[k], b.top)
          && b'.objs == b.objs
  {
    b' := b;
    InsideRoot(b.infos, b.outer, b.c);
    if b.outer != [] {
      ghost var k := |b.outer| - 1;
      ghost var p, t := b.infos[b.c].parent, b.outer[k];
      ghost var ks := KidsOf(b.infos, b.objs, p);
      assert KidsOk(b.infos, p) && NodeIs(b.infos, b.objs, p) && InList(ks, |t.kids|, b.objs[p]);
      GroupLeft(b.infos, b.outer, b.top, b.c, t, Attach(t, b.top));
      b' := Making(b.infos, b.objs, b.outer[..k], Attach(t, b.top), p);
    }
    parent := lastParent.parent;
  }

  // ---------------------------------------------------------------- options

  /** The number of the last entry. */
  ghost function LastNumber(b: Making): nat
    requires b.c < |b.infos| && b.infos[b.c].kids != []
  {
    b.infos[b.c].kids[|b.infos[b.c].kids| - 1]
  }

  /** Where the loop's variables point. */
  lemma Pointers(b: Making, lastParent: PlayTree, lastEntry: PlayTree?)
    requires Filling(b, lastParent, lastEntry)
    ensures |b.infos[b.c].kids| == |b.top.kids| && (lastEntry == null <==> b.top.kids == [])
    ensures NodeIs(b.infos, b.objs, b.c)
    ensures b.top.kids != [] ==> var k := LastNumber(b);
      && b.c < k < |b.infos| && lastEntry == b.objs[k] && Attrs(b.infos[k], LastKid(b.top))
      && KidsOk(b.infos, k) && NodeIs(b.infos, b.objs, k) && (lastEntry.child != null <==> AfterGroup(b.top))
  {
    LastEntry(b.infos, b.outer, b.top, b.c);
    if b.top.kids != [] {
      var k := LastNumber(b);
      assert KidsOk(b.infos, k) && NodeIs(b.infos, b.objs, k);
    }
  }

  /** The last entry says something else. */
  lemma SaidOfLast(b: Making, lastParent: PlayTree, lastEntry: PlayTree, i: Info, kid: Tree, b': Making)
    requires Numbered(b.infos) && State(b.infos, b.outer, b.top, b.c) && |b.infos| == |b.objs| && KidsOk(b.infos, b.c)
    requires b.top.kids != [] && |b.infos[b.c].kids| == |b.top.kids|
    requires lastParent == b.objs[b.c] && lastEntry == b.objs[LastNumber(b)]
    requires i.kids == b.infos[LastNumber(b)].kids && i.parent == b.infos[LastNumber(b)].parent
        && kid.kids == LastKid(b.top).kids && Attrs(i, kid)
    requires b' == b.(infos := b.infos[LastNumber(b) := i], top := WithLastKid(b.top, kid))
        && Represents(b'.infos, b'.objs)
    ensures Filling(b', lastParent, lastEntry)
  {
    var k := LastNumber(b);
    LastChanged(b.infos, b.outer, b.top, b.c, k, i, b'.infos, kid, b'.top);
    assert KidsOk(b'.infos, b.c);
  }

  /** The group being filled says something else. */
  lemma SaidOfTop(b: Making, lastParent: PlayTree, lastEntry: PlayTree?, i: Info, top: Tree, b': Making)
    requires Numbered(b.infos) && State(b.infos, b.outer, b.top, b.c) && |b.infos| == |b.objs| && KidsOk(b.infos, b.c)
    requires lastParent == b.objs[b.c] && lastEntry == At(KidsOf(b.infos, b.objs, b.c), |b.infos[b.c].kids| - 1)
    requires i.kids == b.infos[b.c].kids && i.parent == b.infos[b.c].parent && top.kids == b.top.kids && Attrs(i, top)
    requires b' == b.(infos := b.infos[b.c := i], top := top) && Represents(b'.infos, b'.objs)
    ensures Filling(b', lastParent, lastEntry)
  {
    TopChanged(b.infos, b.outer, b.top, b.c, i, b'.infos, top);
    assert KidsOk(b'.infos, b.c);
  }

  /** Does -loop apply to a group here? */
  method LoopsGroup(lastParent: PlayTree, lastEntry: PlayTree?, ghost b: Making) returns (group: bool)
    requires Filling(b, lastParent, lastEntry)
    ensures group == (b.top.kids == [] || AfterGroup(b.top))
  {
    Pointers(b, lastParent, lastEntry);
    group := lastEntry == null || lastEntry.child != null;
  }

  method LoopGroup(lastParent: PlayTree, lastEntry: PlayTree?, l: int, ghost b: Making) returns (ghost b': Making)
    requires Filling(b, lastParent, lastEntry)
    modifies b.objs`loop
    ensures Filling(b', lastParent, lastEntry) && Continues(b, b') && b'.objs == b.objs && b'.top == SetLoop(b.top, l)
  {
    Pointers(b, lastParent, lastEntry);
    if lastEntry != null {
      ghost var k, kid := LastNumber(b), LastKid(b.top).(loop := l);
      PutLoop(lastEntry, l, b.infos, b.objs, k);
      b' := b.(infos := b.infos[k := b.infos[k].(loop := l)], top := WithLastKid(b.top, kid));
      SaidOfLast(b, lastParent, lastEntry, b.infos[k].(loop := l), kid, b');
    } else {
      PutLoop(lastParent, l, b.infos, b.objs, b.c);
      b' := b.(infos := b.infos[b.c := b.infos[b.c].(loop := l)], top := b.top.(loop := l));
      SaidOfTop(b, lastParent, lastEntry, b.infos[b.c].(loop := l), b'.top, b');
    }
  }

  method ShuffleGroup(lastParent: PlayTree, lastEntry: PlayTree?, on: bool, ghost b: Making) returns (ghost b': Making)
    requires Filling(b, lastParent, lastEntry)
    modifies b.objs`rnd
    ensures Filling(b', lastParent, lastEntry) && Continues(b, b') && b'.objs == b.objs
        && b'.top == SetShuffle(b.top, on)
  {
    Pointers(b, lastParent, lastEntry);
    if lastEntry != null && lastEntry.child != null {
      ghost var k, kid := LastNumber(b), LastKid(b.top).(shuffle := on);
      PutShuffle(lastEntry, on, b.infos, b.objs, k);
      b' := b.(infos := b.infos[k := b.infos[k].(shuffle := on)], top := WithLastKid(b.top, kid));
      SaidOfLast(b, lastParent, lastEntry, b.infos[k].(shuffle := on), kid, b');
    } else {
      PutShuffle(lastParent, on, b.infos, b.objs, b.c);
      b' := b.(infos := b.infos[b.c := b.infos[b.c].(shuffle := on)], top := b.top.(shuffle := on));
      SaidOfTop(b, lastParent, lastEntry, b.infos[b.c].(shuffle := on), b'.top, b');
    }
  }

  method ParamHere(lastParent: PlayTree, lastEntry: PlayTree?, p: Param, ghost b: Making) returns (ghost b': Making)
    requires Filling(b, lastParent, lastEntry)
    modifies b.objs`params
    ensures Filling(b', lastParent, lastEntry) && Continues(b, b') && b'.objs == b.objs && b'.top == AddParam(b.top, p)
  {
    Pointers(b, lastParent, lastEntry);
    if lastEntry != null {
      ghost var k := LastNumber(b);
      ghost var i, kid := b.infos[k].(params := b.infos[k].params + [p]),
          LastKid(b.top).(params := LastKid(b.top).params + [p]);
      PutParam(lastEntry, p, b.infos, b.objs, k);
      b' := b.(infos := b.infos[k := i], top := WithLastKid(b.top, kid));
      SaidOfLast(b, lastParent, lastEntry, i, kid, b');
    } else {
      ghost var i := b.infos[b.c].(params := b.infos[b.c].params + [p]);
      PutParam(lastParent, p, b.infos, b.objs, b.c);
      b' := b.(infos := b.infos[b.c := i], top := b.top.(params := b.top.params + [p]));
      SaidOfTop(b, lastParent, lastEntry, i, b'.top, b');
    }
  }

  lemma RestFrom(argv: seq<string>, i: nat, n: nat)
    requires i <= |argv|
    ensures argv[i..][Min(n, |argv[i..]|)..] == argv[Min(i + n, |argv|)..]
  {
  }

  /** What DoOption and its parts promise of a turn. */
  ghost predicate Did(r: Turned, ok: bool, argv: seq<string>, i: nat, next: nat, m: Mode, exit: bool, b: Making,
      b': Making)
  {
    && (ok <==> r.Stay?)
    && (ok ==> (i <= next <= |argv| && argv[next..] == r.rest && r.mode == m.(exit := exit) && b'.top == r.tree
                && Continues(b, b') && b'.objs == b.objs))
  }

  /** An option that the option parser knows, or does not. */
  method OtherOption(opt: string, argv: seq<string>, i: nat, m: Mode, env: Env, lastParent: PlayTree,
      lastEntry: PlayTree?, ghost b: Making)
    returns (ok: bool, next: nat, exit: bool, ghost b': Making)
    requires Filling(b, lastParent, lastEntry) && i <= |argv| && Lower(opt) != "shuffle" && Lower(opt) != "noshuffle"
    requires Lower(opt) != "loop" || !(b.top.kids == [] || AfterGroup(b.top))
    modifies b.objs`params
    ensures Did(OptionTurn(opt, argv[i..], b.top, m, env), ok, argv, i, next, m, exit, b, b')
    ensures ok ==> Filling(b', lastParent, lastEntry)
  {
    ok, next, exit, b' := true, i, m.exit, b;
    var param := if i < |argv| then Some(argv[i]) else None;
    match env.option(opt, param) {
      case Rejected => ok := false;
      case Exits(n) =>
        RestFrom(argv, i, n);
        next, exit := Min(i + n, |argv|), true;
      case Taken(n, global) =>
        RestFrom(argv, i, n);
        next := Min(i + n, |argv|);
        if m.local && !global { b' := ParamHere(lastParent, lastEntry, Param(opt, param), b); }
    }
  }

  /** An option at argv[i - 1], without its dash. */
  method DoOption(opt: string, argv: seq<string>, i: nat, m: Mode, env: Env, lastParent: PlayTree, lastEntry: PlayTree?,
      ghost b: Making)
    returns (ok: bool, next: nat, exit: bool, ghost b': Making)
    requires Filling(b, lastParent, lastEntry) && i <= |argv|
    modifies b.objs`loop, b.objs`rnd, b.objs`params
    ensures Did(OptionTurn(opt, argv[i..], b.top, m, env), ok, argv, i, next, m, exit, b, b')
    ensures ok ==> Filling(b', lastParent, lastEntry)
  {
    ok, next, exit, b' := true, i, m.exit, b;
    var group := LoopsGroup(lastParent, lastEntry, b);
    if Lower(opt) == "loop" && group {
      if i == |argv| { return false, i, exit, b; }
      var count := LoopCount(argv[i]);
      if count == None { return false, i, exit, b; }
      b' := LoopGroup(lastParent, lastEntry, count.value, b);
      next := i + 1;
    } else if Lower(opt) == "shuffle" {
      b' := ShuffleGroup(lastParent, lastEntry, true, b);
    } else if Lower(opt) == "noshuffle" {
      b' := ShuffleGroup(lastParent, lastEntry, false, b);
    } else {
      ok, next, exit, b' := OtherOption(opt, argv, i, m, env, lastParent, lastEntry, b);
    }
  }

  /** One turn of the loop in terms of what its argument does. */
  lemma LoopStep(args: seq<string>, outer: seq<Tree>, top: Tree, m: Mode, env: Env, r: Turned)
    requires args != [] && r == Turn(args, top, m, env)
    ensures Loop(args, outer, top, m, env) ==
      match r
      case Bad(why) => Refused(why)
      case Enter(rest, m') => Loop(rest, outer + [top], Group(top.shuffle), m', env)
      case Leave(rest) =>
        if outer == [] then Refused(TooManyClosers)
            else Loop(rest, outer[..|outer| - 1], Attach(outer[|outer| - 1], top), m, env)
      case Stay(t, rest, m') => Loop(rest, outer, t, m', env)
  {
  }

  /** What the argument opt does, with the arguments rest behind it. */
  lemma TurnIs(args: seq<string>, opt: string, rest: seq<string>, top: Tree, m: Mode, env: Env)
    requires args != [] && args[0] == opt && args[1..] == rest
    ensures Turn(args, top, m, env) ==
      if opt == "--" then (if rest == [] then Bad(NoFileGiven) else Stay(top, rest, m.(noMore := true)))
      else if opt == "{" then Enter(rest, m.(local := true))
      else if opt == "}" then Leave(rest)
      else if !m.noMore && |opt| > 1 && opt[0] == '-' then OptionTurn(opt[1..], rest, top, m, env)
      else Stay(AddFiles(top, env.names(opt)), rest, m.(local := true))
  {
  }

  /** An argument that is not a brace: an option or a file. */
  method EntryOrOption(opt: string, argv: seq<string>, i: nat, m: Mode, env: Env, lastParent: PlayTree,
      lastEntry: PlayTree?, ghost b: Making)
    returns (ok: bool, next: nat, m': Mode, last: PlayTree?, ghost b': Making)
    requires Filling(b, lastParent, lastEntry) && i <= |argv| && opt != "--" && opt != "{" && opt != "}"
    modifies b.objs
    ensures var r := Turn([opt] + argv[i..], b.top, m, env);
      && (ok <==> r.Stay?)
      && (ok ==> i <= next <= |argv| && argv[next..] == r.rest && m' == r.mode && b'.top == r.tree && Continues(b, b'))
    ensures ok ==> Filling(b', lastParent, last) && forall j | |b.objs| <= j < |b'.objs| :: fresh(b'.objs[j])
  {
    ghost var args := [opt] + argv[i..];
    TurnIs(args, opt, argv[i..], b.top, m, env);
    if !m.noMore && |opt| > 1 && opt[0] == '-' {
      var exit;
      ok, next, exit, b' := DoOption(opt[1..], argv, i, m, env, lastParent, lastEntry, b);
      m', last := m.(exit := exit), lastEntry;
    } else {
      last, b' := FileEntries(lastParent, lastEntry, env.names(opt), b);
      ok, next, m' := true, i, m.(local := true);
    }
  }

  /** One turn of the loop: a brace, an option or a file, or the end of the options. */
  method OneArgument(argv: seq<string>, at: nat, m: Mode, env: Env, lastParent: PlayTree, lastEntry: PlayTree?,
      ghost b: Making)
    returns (ok: bool, next: nat, m': Mode, parent: PlayTree, last: PlayTree?, ghost b': Making)
    requires Filling(b, lastParent, lastEntry) && at < |argv|
    modifies b.objs
    ensures ok ==> at < next <= |argv| && Filling(b', parent, last) && b.objs <= b'.objs
    ensures ok ==> forall j | |b.objs| <= j < |b'.objs| :: fresh(b'.objs[j])
    ensures var built := Loop(argv[at..], b.outer, b.top, m, env);
      if ok then Loop(argv[next..], b'.outer, b'.top, m', env) == built else built.Refused?
  {
    ghost var args := argv[at..];
    LoopStep(args, b.outer, b.top, m, env, Turn(args, b.top, m, env));
    ok, parent, last, m', b' := true, lastParent, lastEntry, m, b;
    var opt := argv[at];
    next := at + 1;
    assert args == [opt] + argv[next..];
    TurnIs(args, opt, argv[next..], b.top, m, env);
    if opt == "--" {
      m' := m.(noMore := true);
      ok := next < |argv|;
    } else if opt == "{" {
      m' := m.(local := true);
      parent, b' := OpenGroup(lastParent, lastEntry, b);
      last := null;
    } else if opt == "}" {
      var up;
      up, b' := CloseGroup(lastParent, lastEntry, b);
      if up == null { return false, next, m, lastParent, lastEntry, b; }
      last, parent := lastParent, up;
    } else {
      ok, next, m', last, b' := EntryOrOption(opt, argv, next, m, env, lastParent, lastEntry, b);
    }
  }

  /** m_config_parse_mp_command_line: the tree that the command line means, or none. */
  method ParseCommandLine(argv: seq<string>, env: Env)
    returns (root: PlayTree?, ghost infos: seq<Info>, ghost objs: seq<PlayTree>)
    ensures root != null <==> Meaning(argv, env).Built?
    ensures root != null ==>
      && Represents(infos, objs) && root == objs[0]
      && Rep(infos, 0, Meaning(argv, env).tree) && Size(Meaning(argv, env).tree) == |infos|
    ensures forall j | 0 <= j < |objs| :: fresh(objs[j])
  {
    var top := new PlayTree();
    var lastParent: PlayTree, lastEntry: PlayTree? := top, null;
    ghost var b := Making([NewInfo(None, false, 0)], [top], [], ROOT, 0);
    Beginning(b, top);
    var i, m := 0, BEGIN;
    infos, objs := [], [];
    ghost var built := Meaning(argv, env);
    LoopMeans(argv, env);
    assert argv[0..] == argv;
    while i < |argv|
      invariant 0 <= i <= |argv| && forall j | 0 <= j < |b.objs| :: fresh(b.objs[j])
      invariant Filling(b, lastParent, lastEntry) && b.objs[0] == top
      invariant Loop(argv[i..], b.outer, b.top, m, env) == built
    {
      var ok;
      ok, i, m, lastParent, lastEntry, b := OneArgument(argv, i, m, env, lastParent, lastEntry, b);
      if !ok { return null, [], []; }
    }
    if m.exit { return null, [], []; }
    AllClosed(b.infos, b.outer, b.top, b.c);
    return top, b.infos, b.objs;
  }

  lemma Beginning(b: Making, top: PlayTree)
    requires b == Making([NewInfo(None, false, 0)], [top], [], ROOT, 0) && Alone(top) && top.child == null
    requires Says(top, NewInfo(None, false, 0))
    ensures Filling(b, top, null)
  {
    assert forall n: nat | n < 1 :: KidsOk(b.infos, n);
  }
}

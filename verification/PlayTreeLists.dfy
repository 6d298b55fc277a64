/** The sibling lists of playtree.c: linking entries in and taking them out. */
module PlayTreeLists {
  import opened Util
  import opened PlayTrees

  ghost function At(nodes: seq<PlayTree>, i: int): PlayTree? {
    if 0 <= i < |nodes| then nodes[i] else null
  }

  ghost predicate InList(nodes: seq<PlayTree>, i: int, parent: PlayTree?)
    requires 0 <= i < |nodes|
    reads nodes`prev, nodes`next, nodes`parent
  {
    nodes[i].prev == At(nodes, i - 1) && nodes[i].next == At(nodes, i + 1) && nodes[i].parent == parent
  }

  ghost function Only(n: PlayTree?): set<PlayTree> {
    if n == null then {} else {n}
  }

  /** The nodes are linked both ways, share one parent, and the parent knows the first of them. */
  ghost predicate Chain(nodes: seq<PlayTree>, parent: PlayTree?)
    reads nodes`prev, nodes`next, nodes`parent, Only(parent)`child
  {
    && (parent != null ==> parent.child == At(nodes, 0))
    && forall i {:trigger InList(nodes, i, parent)} | 0 <= i < |nodes| :: InList(nodes, i, parent)
  }

  /** No node is twice in its list. */
  lemma {:induction false} Distinct(nodes: seq<PlayTree>, parent: PlayTree?, i: nat, j: nat)
    requires Chain(nodes, parent) && i < j < |nodes|
    ensures nodes[i] != nodes[j]
    decreases i
  {
    assert InList(nodes, i, parent) && InList(nodes, j, parent);
    if i > 0 { Distinct(nodes, parent, i - 1, j - 1); }
  }

  ghost predicate NoRepeats(nodes: seq<PlayTree>) {
    forall i, j | 0 <= i < j < |nodes| :: nodes[i] != nodes[j]
  }

  lemma ChainNoRepeats(nodes: seq<PlayTree>, parent: PlayTree?)
    requires Chain(nodes, parent)
    ensures NoRepeats(nodes)
  {
    forall i, j | 0 <= i < j < |nodes| ensures nodes[i] != nodes[j] { Distinct(nodes, parent, i, j); }
  }

  method Last(pt: PlayTree, ghost nodes: seq<PlayTree>, ghost parent: PlayTree?) returns (last: PlayTree)
    requires Chain(nodes, parent) && pt in nodes
    ensures last == nodes[|nodes| - 1]
  {
    ghost var k :| 0 <= k < |nodes| && nodes[k] == pt;
    last := pt;
    assert InList(nodes, k, parent);
    while last.next != null
      invariant 0 <= k < |nodes| && last == nodes[k] && InList(nodes, k, parent)
      decreases |nodes| - k
    {
      last, k := last.next, k + 1;
      assert InList(nodes, k, parent);
    }
  }

  method First(pt: PlayTree, ghost nodes: seq<PlayTree>, ghost parent: PlayTree?) returns (first: PlayTree)
    requires Chain(nodes, parent) && pt in nodes
    ensures first == nodes[0]
  {
    ghost var k :| 0 <= k < |nodes| && nodes[k] == pt;
    first := pt;
    assert InList(nodes, k, parent);
    while first.prev != null
      invariant 0 <= k < |nodes| && first == nodes[k] && InList(nodes, k, parent)
      decreases k
    {
      first, k := first.prev, k - 1;
      assert InList(nodes, k, parent);
    }
  }

  /** play_tree_append_entry */
  method Append(pt: PlayTree, entry: PlayTree, ghost nodes: seq<PlayTree>, ghost parent: PlayTree?)
    requires Chain(nodes, parent) && pt in nodes && (entry !in nodes || entry == pt)
    modifies entry`parent, entry`prev, entry`next, nodes`next
    ensures Chain(if entry == pt then nodes else nodes + [entry], parent)
  {
    if pt == entry { return; }
    ChainNoRepeats(nodes, parent);
    var last := Last(pt, nodes, parent);
    assert InList(nodes, |nodes| - 1, parent);
    entry.parent := last.parent;
    entry.prev := last;
    entry.next := null;
    last.next := entry;
    forall i | 0 <= i < |nodes| ensures InList(nodes + [entry], i, parent) { assert old(InList(nodes, i, parent)); }
  }

  /** play_tree_prepend_entry */
  method Prepend(pt: PlayTree, entry: PlayTree, ghost nodes: seq<PlayTree>, ghost parent: PlayTree?)
    requires Chain(nodes, parent) && pt in nodes && entry !in nodes
    modifies entry`parent, entry`prev, entry`next, nodes`prev, Only(parent)`child
    ensures Chain([entry] + nodes, parent)
  {
    ChainNoRepeats(nodes, parent);
    var first := First(pt, nodes, parent);
    assert InList(nodes, 0, parent);
    entry.prev := null;
    entry.next := first;
    entry.parent := first.parent;
    first.prev := entry;
    if entry.parent != null {
      entry.parent.child := entry;
    }
    forall i | 0 < i <= |nodes| ensures InList([entry] + nodes, i, parent) { assert old(InList(nodes, i - 1, parent)); }
  }

  function Inserted(nodes: seq<PlayTree>, i: nat, entry: PlayTree): seq<PlayTree>
    requires i <= |nodes|
  {
    nodes[..i] + [entry] + nodes[i..]
  }

  function Without(nodes: seq<PlayTree>, i: nat): seq<PlayTree>
    requires i < |nodes|
  {
    nodes[..i] + nodes[i + 1..]
  }

  /** play_tree_insert_entry: entry goes right after pt. */
  method Insert(pt: PlayTree, entry: PlayTree, ghost nodes: seq<PlayTree>, ghost k: nat, ghost parent: PlayTree?)
    requires Chain(nodes, parent) && k < |nodes| && pt == nodes[k] && entry !in nodes
    modifies entry`parent, entry`prev, entry`next, nodes`prev, nodes`next
    ensures Chain(Inserted(nodes, k + 1, entry), parent)
  {
    ChainNoRepeats(nodes, parent);
    assert InList(nodes, k, parent);
    assert k + 1 < |nodes| ==> InList(nodes, k + 1, parent);
    entry.parent := pt.parent;
    entry.prev := pt;
    if pt.next != null {
      entry.next := pt.next;
      entry.next.prev := entry;
    } else {
      entry.next := null;
    }
    pt.next := entry;
    ghost var all := Inserted(nodes, k + 1, entry);
    forall i | 0 <= i < |all| ensures InList(all, i, parent) {
      if i != k + 1 { assert old(InList(nodes, if i <= k then i else i - 1, parent)); }
    }
  }

  /** play_tree_remove */
  method Remove(pt: PlayTree, ghost nodes: seq<PlayTree>, ghost k: nat, ghost parent: PlayTree?)
    requires Chain(nodes, parent) && k < |nodes| && pt == nodes[k]
    modifies pt`parent, nodes`prev, nodes`next, Only(parent)`child
    ensures Chain(Without(nodes, k), parent)
    ensures pt.prev == pt.next == pt.parent == null
  {
    ChainNoRepeats(nodes, parent);
    assert InList(nodes, k, parent);
    assert k + 1 < |nodes| ==> InList(nodes, k + 1, parent);
    assert k > 0 ==> InList(nodes, k - 1, parent);
    if pt.prev != null && pt.next != null {
      pt.prev.next := pt.next;
      pt.next.prev := pt.prev;
    } else if pt.prev != null {
      pt.prev.next := null;
    } else if pt.next != null {
      pt.next.prev := null;
      if pt.parent != null { pt.parent.child := pt.next; }
    } else if pt.parent != null {
      pt.parent.child := null;
    }
    pt.prev, pt.next, pt.parent := null, null, null;
    forall i | 0 <= i < |nodes| - 1 ensures InList(Without(nodes, k), i, parent) {
      assert old(InList(nodes, if i < k then i else i + 1, parent));
    }
  }


  /** Every node of the list gets another parent. */
  method Reparent(first: PlayTree?, ghost nodes: seq<PlayTree>, ghost was: PlayTree?, parent: PlayTree?)
    requires first == At(nodes, 0) && Chain(nodes, was)
    modifies nodes`parent
    ensures forall i {:trigger InList(nodes, i, parent)} | 0 <= i < |nodes| :: InList(nodes, i, parent)
  {
    ChainNoRepeats(nodes, was);
    ghost var k := 0;
    var iter := first;
    while iter != null
      invariant 0 <= k <= |nodes| && iter == At(nodes, k)
      invariant forall i {:trigger InList(nodes, i, parent)} | 0 <= i < k :: InList(nodes, i, parent)
      invariant forall i {:trigger InList(nodes, i, was)} | k <= i < |nodes| :: InList(nodes, i, was)
      decreases |nodes| - k
    {
      assert InList(nodes, k, was);
      label L:
      iter.parent := parent;
      forall i | 0 <= i < k ensures InList(nodes, i, parent) { assert old@L(InList(nodes, i, parent)); }
      forall i | k < i < |nodes| ensures InList(nodes, i, was) { assert old@L(InList(nodes, i, was)); }
      iter := iter.next;
      k := k + 1;
    }
  }

  /** A node has the same place in any two lists it is in. */
  lemma {:induction false} SamePlace(a: seq<PlayTree>, p: PlayTree?, i: nat, b: seq<PlayTree>, q: PlayTree?, j: nat)
    requires Chain(a, p) && Chain(b, q) && i < |a| && j < |b| && a[i] == b[j]
    ensures i == j && p == q
    decreases i
  {
    assert InList(a, i, p) && InList(b, j, q);
    if i > 0 && j > 0 { SamePlace(a, p, i - 1, b, q, j - 1); }
  }

  lemma {:induction false} SameAt(a: seq<PlayTree>, p: PlayTree?, b: seq<PlayTree>, q: PlayTree?, i: nat, k: nat)
    requires Chain(a, p) && Chain(b, q) && i < |a| && i < |b| && a[i] == b[i] && k < |a|
    ensures k < |b| && a[k] == b[k]
    decreases if k < i then i - k else k - i
  {
    if k < i {
      SameAt(a, p, b, q, i, k + 1);
      assert InList(a, k + 1, p) && InList(b, k + 1, q);
    } else if k > i {
      SameAt(a, p, b, q, i, k - 1);
      assert InList(a, k - 1, p) && InList(b, k - 1, q);
    }
  }

  /** Two linked lists that share a node are the same list. */
  lemma SameChain(a: seq<PlayTree>, p: PlayTree?, b: seq<PlayTree>, q: PlayTree?, n: PlayTree)
    requires Chain(a, p) && Chain(b, q) && n in a && n in b
    ensures a == b && p == q
  {
    var i :| 0 <= i < |a| && a[i] == n;
    var j :| 0 <= j < |b| && b[j] == n;
    SamePlace(a, p, i, b, q, j);
    if |a| < |b| { SameAt(b, q, a, p, i, |a|); }
    if |b| < |a| { SameAt(a, p, b, q, i, |b|); }
    forall k | 0 <= k < |a| ensures a[k] == b[k] { SameAt(a, p, b, q, i, k); }
  }

  /** play_tree_set_child: the list that child is in becomes the children of pt; the old children, if they are
      others, lose their parent. */
  method SetChild(pt: PlayTree?, child: PlayTree?, ghost orphans: seq<PlayTree>, ghost nodes: seq<PlayTree>,
    ghost parent: PlayTree?)
    requires pt != null && child != null ==> Chain(orphans, pt) && Chain(nodes, parent) && child in nodes
    modifies if pt == null || child == null then {} else {pt}`child, orphans`parent, nodes`parent
    ensures pt != null && child != null ==> Chain(nodes, pt) && (orphans == nodes || Chain(orphans, null))
    ensures pt == null || child == null ==> unchanged(orphans, nodes)
  {
    if pt == null || child == null { return; }
    ghost var now := if child in orphans then null else parent;
    SetChildKeeps(pt, child, orphans, nodes, parent);
    Reparent(pt.child, orphans, pt, null);
    assert Chain(nodes, now) by {
      if child !in orphans {
        forall i | 0 <= i < |nodes| ensures InList(nodes, i, parent) {
          assert nodes[i] in nodes && old(InList(nodes, i, parent));
        }
      }
    }
    var iter := First(child, nodes, now);
    label L:
    Reparent(iter, nodes, now, pt);
    pt.child := iter;
    if child !in orphans {
      forall i | 0 <= i < |orphans| ensures InList(orphans, i, null) {
        assert orphans[i] in orphans && old@L(InList(orphans, i, null));
      }
    }
  }

  /** Either the child is one of pt's already, or no child of pt is in its list. */
  lemma SetChildKeeps(pt: PlayTree, child: PlayTree, orphans: seq<PlayTree>, nodes: seq<PlayTree>, parent: PlayTree?)
    requires Chain(orphans, pt) && Chain(nodes, parent) && child in nodes
    ensures if child in orphans then orphans == nodes && parent == pt else forall n <- orphans :: n !in nodes
  {
    forall n | n in orphans && n in nodes ensures orphans == nodes && parent == pt {
      SameChain(orphans, pt, nodes, parent, n);
    }
  }

  function Settings(params: Option<seq<Param>>): seq<Param> {
    if params.Some? then params.value else []
  }

  /** play_tree_set_param: one more parameter, behind those that are there. */
  method SetParam(pt: PlayTree, name: string, value: Option<string>)
    modifies pt`params
    ensures pt.params == Some(Settings(old(pt.params)) + [Param(name, value)])
  {
    pt.params := Some((if pt.params.Some? then pt.params.value else []) + [Param(name, value)]);
  }

  /** play_tree_set_params_from: the parameters of src behind those of dest; shuffling is passed on only by a node
      that has parameters. */
  method SetParamsFrom(dest: PlayTree, src: PlayTree)
    requires dest != src || src.params == None
    modifies dest`params, dest`rnd
    ensures src.params == old(src.params) && src.rnd == old(src.rnd)
    ensures Settings(dest.params) == Settings(old(dest.params)) + Settings(src.params)
    ensures dest.rnd == (old(dest.rnd) || (src.params.Some? && src.rnd))
  {
    if src.params == None { return; }
    var i := 0;
    while i < |src.params.value|
      invariant src.params == old(src.params) && src.rnd == old(src.rnd) && dest.rnd == old(dest.rnd)
      invariant 0 <= i <= |src.params.value|
      invariant Settings(dest.params) == Settings(old(dest.params)) + src.params.value[..i]
    {
      SetParam(dest, src.params.value[i].name, src.params.value[i].value);
      i := i + 1;
    }
    if src.rnd { dest.rnd := true; }
  }

  /** pt_iter_insert_entry: entry stands after pt, the iterator's cursor, and inherits its parameters. */
  method InsertEntry(pt: PlayTree, entry: PlayTree, ghost nodes: seq<PlayTree>, ghost k: nat, ghost parent: PlayTree?)
    requires Chain(nodes, parent) && k < |nodes| && pt == nodes[k] && entry !in nodes
    modifies entry`parent, entry`prev, entry`next, nodes`prev, nodes`next, entry`params, entry`rnd
    ensures Chain(Inserted(nodes, k + 1, entry), parent)
    ensures Settings(entry.params) == Settings(old(entry.params)) + Settings(pt.params)
    ensures entry.rnd == (old(entry.rnd) || (pt.params.Some? && pt.rnd))
  {
    Insert(pt, entry, nodes, k, parent);
    SetParamsFrom(entry, pt);
  }

  /** pt_iter_replace_entry: entry takes the place of pt and inherits its parameters, and the iterator, which stood
      on pt, stands on entry. */
  method Replace(pt: PlayTree, entry: PlayTree, ghost nodes: seq<PlayTree>, ghost k: nat, ghost parent: PlayTree?)
    returns (tree: PlayTree)
    requires Chain(nodes, parent) && k < |nodes| && pt == nodes[k] && entry !in nodes
    modifies entry`parent, entry`prev, entry`next, nodes`parent, nodes`prev, nodes`next, Only(parent)`child
    modifies entry`params, entry`rnd
    ensures tree == entry && Chain(nodes[k := entry], parent)
    ensures pt.prev == pt.next == pt.parent == null
    ensures Settings(entry.params) == Settings(old(entry.params)) + Settings(pt.params)
    ensures entry.rnd == (old(entry.rnd) || (pt.params.Some? && pt.rnd))
  {
    InsertEntry(pt, entry, nodes, k, parent);
    Remove(pt, Inserted(nodes, k + 1, entry), k, parent);
    assert Without(Inserted(nodes, k + 1, entry), k) == nodes[k := entry];
    tree := entry;
  }

  /** play_tree_insert_entry followed by play_tree_remove of the same entry puts every pointer back. */
  method InsertAndRemove(pt: PlayTree, entry: PlayTree, ghost nodes: seq<PlayTree>, ghost k: nat,
      ghost parent: PlayTree?)
    requires Chain(nodes, parent) && k < |nodes| && pt == nodes[k] && entry !in nodes
    modifies entry`parent, entry`prev, entry`next, nodes`prev, nodes`next, Only(parent)`child
    ensures Chain(nodes, parent)
    ensures forall n | n in nodes :: n.prev == old(n.prev) && n.next == old(n.next)
    ensures parent != null ==> parent.child == old(parent.child)
  {
    Insert(pt, entry, nodes, k, parent);
    Remove(entry, Inserted(nodes, k + 1, entry), k + 1, parent);
    assert Without(Inserted(nodes, k + 1, entry), k + 1) == nodes;
    forall n | n in nodes ensures n.prev == old(n.prev) && n.next == old(n.next) {
      var i :| 0 <= i < |nodes| && nodes[i] == n;
      assert old(InList(nodes, i, parent)) && InList(nodes, i, parent);
    }
  }
}

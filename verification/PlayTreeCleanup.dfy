/** play_tree_cleanup: what it leaves of a tree. */
module PlayTreeCleanup {
  import opened Util
  import opened PlayTrees
  import opened PlayTreeLists

  // ---------------------------------------------------------------- the nodes worth keeping

  ghost predicate Worth(s: Shape, n: PlayTree)
    requires ShapeOk(s)
  {
    n in s.kids && HasFile(s, n)
  }

  /** Those of the nodes that hold a file, in order. */
  ghost function Kept(s: Shape, nodes: seq<PlayTree>): seq<PlayTree>
    requires ShapeOk(s)
  {
    if nodes == [] then [] else (if Worth(s, nodes[0]) then [nodes[0]] else []) + Kept(s, nodes[1..])
  }

  lemma {:induction false} KeptIn(s: Shape, nodes: seq<PlayTree>, n: PlayTree)
    requires ShapeOk(s)
    ensures n in Kept(s, nodes) <==> n in nodes && Worth(s, n)
  {
    if nodes != [] { KeptIn(s, nodes[1..], n); }
  }

  lemma {:induction false} KeptConcat(s: Shape, a: seq<PlayTree>, b: seq<PlayTree>)
    requires ShapeOk(s)
    ensures Kept(s, a + b) == Kept(s, a) + Kept(s, b)
    decreases a
  {
    if a == [] {
      assert a + b == b;
    } else {
      assert (a + b)[0] == a[0] && (a + b)[1..] == a[1..] + b;
      KeptConcat(s, a[1..], b);
    }
  }

  /** Taking one node off the front. */
  lemma KeptFrom(s: Shape, nodes: seq<PlayTree>, k: nat)
    requires ShapeOk(s) && k < |nodes|
    ensures Kept(s, nodes[k..]) == (if Worth(s, nodes[k]) then [nodes[k]] else []) + Kept(s, nodes[k + 1..])
  {
    assert nodes[k..][1..] == nodes[k + 1..];
  }

  lemma KidOf(s: Shape, n: PlayTree, c: PlayTree)
    requires ShapeOk(s) && n in s.kids && c in s.kids[n]
    ensures c in s.kids && c in s.up && s.up[c] == n && s.depth[c] == s.depth[n] + 1
  {
    var i :| 0 <= i < |s.kids[n]| && s.kids[n][i] == c;
    assert ChildOk(s, n, i);
  }

  lemma HasFileIff(s: Shape, n: PlayTree)
    requires ShapeOk(s) && n in s.kids
    ensures HasFile(s, n) <==> n in s.entries || Kept(s, s.kids[n]) != []
  {
    var kids := s.kids[n];
    if n !in s.entries && HasFile(s, n) {
      var i :| 0 <= i < |kids| && (assert ChildOk(s, n, i); HasFile(s, kids[i]));
      assert ChildOk(s, n, i);
      KeptIn(s, kids, kids[i]);
    }
    if Kept(s, kids) != [] {
      KeptIn(s, kids, Kept(s, kids)[0]);
      KidOf(s, n, Kept(s, kids)[0]);
    }
  }

  // ---------------------------------------------------------------- a tree partly cleaned

  /** List is children of q with some that hold no file taken out. */
  ghost predicate Thinned(s: Shape, q: PlayTree, list: seq<PlayTree>)
    requires ShapeOk(s) && q in s.kids
  {
    (forall n <- list :: n in s.kids[q]) && Kept(s, list) == Kept(s, s.kids[q])
  }

  /** The pointers say that every node q has the children lists[q]. */
  ghost predicate Listed(s: Shape, lists: map<PlayTree, seq<PlayTree>>, q: PlayTree)
    requires ShapeOk(s) && q in s.kids && q in lists
    reads lists[q]`prev, lists[q]`next, lists[q]`parent, q`child, q`entryType
  {
    && Thinned(s, q, lists[q]) && Chain(lists[q], q)
    && (q.entryType != ENTRY_NODE <==> q in s.entries)
  }

  ghost function Listing(lists: map<PlayTree, seq<PlayTree>>): set<PlayTree> {
    set q, n | q in lists && n in lists[q] :: n
  }

  ghost predicate Partly(s: Shape, lists: map<PlayTree, seq<PlayTree>>)
    reads Listing(lists)`prev, Listing(lists)`next, Listing(lists)`parent, s.kids.Keys`child, s.kids.Keys`entryType
    reads s.root`prev, s.root`next, s.root`parent
  {
    && ShapeOk(s) && lists.Keys == s.kids.Keys
    && s.root.prev == s.root.next == null && s.root.parent == null
    && forall q {:trigger Listed(s, lists, q)} | q in s.kids ::
         (assert forall n | n in lists[q] :: n in Listing(lists); Listed(s, lists, q))
  }

  /** play_tree_is_valid */
  method IsValid(pt: PlayTree, ghost s: Shape, ghost lists: map<PlayTree, seq<PlayTree>>) returns (valid: bool)
    requires Partly(s, lists) && pt in s.kids
    ensures valid == HasFile(s, pt)
    decreases Room(s, pt)
  {
    HasFileIff(s, pt);
    assert Listed(s, lists, pt);
    ghost var list := lists[pt];
    if pt.entryType != ENTRY_NODE {
      return true;
    } else if pt.child != null {
      ghost var i := 0;
      var iter := pt.child;
      while iter != null
        invariant 0 <= i <= |list| && iter == At(list, i)
        invariant Kept(s, list[i..]) == Kept(s, list)
        decreases |list| - i
      {
        assert InList(list, i, pt);
        KidOf(s, pt, iter);
        KeptFrom(s, list, i);
        var v := IsValid(iter, s, lists);
        if v { return true; }
        iter := iter.next;
        i := i + 1;
      }
    }
    return false;
  }

  /** Below n, every node that holds no file is gone. */
  ghost predicate Cleaned(s: Shape, lists: map<PlayTree, seq<PlayTree>>, n: PlayTree)
    requires ShapeOk(s) && lists.Keys == s.kids.Keys && n in s.kids
    decreases Room(s, n)
  {
    && lists[n] == Kept(s, s.kids[n])
    && forall c {:trigger Worth(s, c)} | c in s.kids[n] && Worth(s, c) :: KidOf(s, n, c); Cleaned(s, lists, c)
  }

  /** From was to now, lists are only thinned out completely or not at all. */
  ghost predicate Cleaner(s: Shape, was: map<PlayTree, seq<PlayTree>>, now: map<PlayTree, seq<PlayTree>>)
    requires ShapeOk(s) && was.Keys == now.Keys == s.kids.Keys
  {
    forall q {:trigger now[q]} | q in s.kids :: now[q] == was[q] || now[q] == Kept(s, s.kids[q])
  }

  lemma {:induction false} StaysCleaned(s: Shape, was: map<PlayTree, seq<PlayTree>>, now: map<PlayTree, seq<PlayTree>>,
      n: PlayTree)
    requires ShapeOk(s) && was.Keys == now.Keys == s.kids.Keys && n in s.kids
    requires Cleaner(s, was, now) && Cleaned(s, was, n)
    ensures Cleaned(s, now, n)
    decreases Room(s, n)
  {
    assert now[n] == now[n];
    forall c | c in s.kids[n] && Worth(s, c) ensures c in s.kids && Cleaned(s, now, c) {
      KidOf(s, n, c);
      StaysCleaned(s, was, now, c);
    }
  }

  lemma ThinnedWithout(s: Shape, q: PlayTree, list: seq<PlayTree>, k: nat)
    requires ShapeOk(s) && q in s.kids && Thinned(s, q, list) && k < |list| && !Worth(s, list[k])
    ensures Thinned(s, q, Without(list, k))
  {
    KeptFrom(s, list, k);
    KeptConcat(s, list[..k], list[k..]);
    KeptConcat(s, list[..k], list[k + 1..]);
    assert list == list[..k] + list[k..];
  }

  /** Node n is the k-th in its list. */
  ghost predicate Removable(s: Shape, lists: map<PlayTree, seq<PlayTree>>, n: PlayTree, k: nat)
    requires ShapeOk(s) && lists.Keys == s.kids.Keys && n in s.kids
  {
    k < |ListWith(s, lists, n)| && ListWith(s, lists, n)[k] == n
  }

  /** The list that node n stands in. */
  ghost function ListWith(s: Shape, lists: map<PlayTree, seq<PlayTree>>, n: PlayTree): seq<PlayTree>
    requires ShapeOk(s) && lists.Keys == s.kids.Keys && n in s.kids
  {
    if n == s.root then [n] else assert UpOk(s, n); lists[s.up[n]]
  }

  /** The lists without node n. */
  ghost function Removed(s: Shape, lists: map<PlayTree, seq<PlayTree>>, n: PlayTree, k: nat)
      : map<PlayTree, seq<PlayTree>>
    requires ShapeOk(s) && lists.Keys == s.kids.Keys && n in s.kids && Removable(s, lists, n, k)
  {
    if n == s.root then lists else assert UpOk(s, n); lists[s.up[n] := Without(ListWith(s, lists, n), k)]
  }

  lemma WithChain(s: Shape, lists: map<PlayTree, seq<PlayTree>>, n: PlayTree)
    requires Partly(s, lists) && n in s.kids
    ensures Chain(ListWith(s, lists, n), ParentOf(s, n)) && (n != s.root ==> s.up[n] in s.kids)
    ensures forall m <- ListWith(s, lists, n) :: m in s.kids && ParentOf(s, m) == ParentOf(s, n)
  {
    if n == s.root {
      assert InList([n], 0, null);
    } else {
      var q := s.up[n];
      assert UpOk(s, n) && Listed(s, lists, q);
      forall m <- lists[q] ensures m in s.kids && m != s.root && s.up[m] == q { KidOf(s, q, m); }
    }
  }

  /** Removes node n; the lists it is not in stay as they are. */
  method Unlink(n: PlayTree, ghost k: nat, ghost s: Shape, ghost lists: map<PlayTree, seq<PlayTree>>)
    requires Partly(s, lists) && n in s.kids && Removable(s, lists, n, k)
    modifies s.kids.Keys`parent, s.kids.Keys`prev, s.kids.Keys`next, Only(ParentOf(s, n))`child
    ensures Chain(Without(ListWith(s, lists, n), k), ParentOf(s, n))
    ensures forall q {:trigger Listed(s, lists, q)} | q in s.kids && q != ParentOf(s, n) :: Listed(s, lists, q)
    ensures s.root.prev == s.root.next == null && s.root.parent == null
  {
    ghost var list, up := ListWith(s, lists, n), ParentOf(s, n);
    WithChain(s, lists, n);
    assert n != s.root ==> s.root !in list;
    Remove(n, list, k, up);
    forall q | q in s.kids && q != up ensures Listed(s, lists, q) {
      assert old(Listed(s, lists, q));
      var other := lists[q];
      forall i | 0 <= i < |other| ensures InList(other, i, q) {
        assert old(InList(other, i, q));
        KidOf(s, q, other[i]);
      }
    }
  }

  lemma ListedAgain(s: Shape, lists: map<PlayTree, seq<PlayTree>>, now: map<PlayTree, seq<PlayTree>>, q: PlayTree)
    requires ShapeOk(s) && q in s.kids && q in lists && q in now && now[q] == lists[q] && Listed(s, lists, q)
    ensures Listed(s, now, q)
  {
  }

  /** Takes node n, which holds no file, out of its list. */
  method DropNode(n: PlayTree, ghost k: nat, ghost s: Shape, ghost lists: map<PlayTree, seq<PlayTree>>)
    requires Partly(s, lists) && n in s.kids && !Worth(s, n) && Removable(s, lists, n, k)
    modifies s.kids.Keys`parent, s.kids.Keys`prev, s.kids.Keys`next, Only(ParentOf(s, n))`child
    ensures Partly(s, Removed(s, lists, n, k))
  {
    ghost var up, now := ParentOf(s, n), Removed(s, lists, n, k);
    if up != null {
      assert UpOk(s, n) && Listed(s, lists, up);
      ThinnedWithout(s, up, lists[up], k);
    }
    Unlink(n, k, s, lists);
    assert up != null ==> Listed(s, now, up);
    forall q | q in s.kids && q != up ensures Listed(s, now, q) { ListedAgain(s, lists, now, q); }
  }

  /** One turn of the first loop of play_tree_cleanup. */
  method DropIfInvalid(n: PlayTree, ghost k: nat, ghost pt: PlayTree, ghost s: Shape,
      ghost lists: map<PlayTree, seq<PlayTree>>)
    returns (dropped: bool)
    requires Partly(s, lists) && pt in s.kids && k < |lists[pt]| && n == lists[pt][k]
    modifies s.kids.Keys`parent, s.kids.Keys`prev, s.kids.Keys`next, pt`child
    ensures dropped <==> !Worth(s, n)
    ensures Partly(s, if dropped then lists[pt := Without(lists[pt], k)] else lists)
  {
    assert Listed(s, lists, pt);
    KidOf(s, pt, n);
    var valid := IsValid(n, s, lists);
    if !valid { DropNode(n, k, s, lists); }
    dropped := !valid;
  }

  lemma KeptMore(s: Shape, list: seq<PlayTree>, k: nat)
    requires ShapeOk(s) && k < |list| && Kept(s, list[..k]) == list[..k]
    ensures Worth(s, list[k]) ==> Kept(s, list[..k + 1]) == list[..k + 1]
  {
    KeptConcat(s, list[..k], [list[k]]);
    assert list[..k + 1] == list[..k] + [list[k]];
  }

  /** The first loop of play_tree_cleanup. */
  method DropInvalid(pt: PlayTree, ghost s: Shape, ghost lists: map<PlayTree, seq<PlayTree>>) returns (first: PlayTree?)
    requires Partly(s, lists) && pt in s.kids
    modifies s.kids.Keys`parent, s.kids.Keys`prev, s.kids.Keys`next, pt`child
    ensures Partly(s, lists[pt := Kept(s, s.kids[pt])]) && first == At(Kept(s, s.kids[pt]), 0)
  {
    assert Listed(s, lists, pt);
    ghost var now: map<PlayTree, seq<PlayTree>>, list, k := lists, lists[pt], 0;
    assert list[..0] == [];
    first := pt.child;
    var iter := pt.child;
    while iter != null
      invariant 0 <= k <= |list| && iter == At(list, k) && first == At(list, 0)
      invariant Kept(s, list[..k]) == list[..k]
      invariant Partly(s, now) && now == lists[pt := list]
      decreases |list| - k
    {
      assert Listed(s, now, pt) && InList(list, k, pt);
      KeptMore(s, list, k);
      if k > 0 { Distinct(list, pt, 0, k); }
      var tmp := iter;
      iter := iter.next;
      var dropped := DropIfInvalid(tmp, k, pt, s, now);
      if dropped {
        if tmp == first { first := iter; }
        now := now[pt := Without(list, k)];
        list := Without(list, k);
      } else {
        k := k + 1;
      }
    }
    assert Listed(s, now, pt) && list[..k] == list;
  }

  lemma KeptKid(s: Shape, n: PlayTree, c: PlayTree)
    requires ShapeOk(s) && n in s.kids && c in Kept(s, s.kids[n])
    ensures c in s.kids && Worth(s, c) && Room(s, c) < Room(s, n)
  {
    KeptIn(s, s.kids[n], c);
    KidOf(s, n, c);
  }

  ghost predicate FirstCleaned(s: Shape, lists: map<PlayTree, seq<PlayTree>>, list: seq<PlayTree>, k: nat)
    requires ShapeOk(s) && lists.Keys == s.kids.Keys && k <= |list|
  {
    forall i | 0 <= i < k :: list[i] in s.kids && Cleaned(s, lists, list[i])
  }

  lemma NextCleaned(s: Shape, lists: map<PlayTree, seq<PlayTree>>, was: map<PlayTree, seq<PlayTree>>,
      now: map<PlayTree, seq<PlayTree>>, pt: PlayTree, k: nat)
    requires ShapeOk(s) && lists.Keys == was.Keys == now.Keys == s.kids.Keys && pt in s.kids
    requires Cleaner(s, lists, was) && Cleaner(s, was, now) && was[pt] == Kept(s, s.kids[pt]) && k < |was[pt]|
    requires FirstCleaned(s, was, was[pt], k) && was[pt][k] in s.kids && Cleaned(s, now, was[pt][k])
    ensures FirstCleaned(s, now, was[pt], k + 1) && Cleaner(s, lists, now) && now[pt] == was[pt]
  {
    forall i | 0 <= i < k ensures Cleaned(s, now, was[pt][i]) { StaysCleaned(s, was, now, was[pt][i]); }
    forall q | q in s.kids ensures now[q] == lists[q] || now[q] == Kept(s, s.kids[q]) { assert was[q] == was[q]; }
  }

  lemma AllCleaned(s: Shape, lists: map<PlayTree, seq<PlayTree>>, pt: PlayTree)
    requires ShapeOk(s) && lists.Keys == s.kids.Keys && pt in s.kids
    requires lists[pt] == Kept(s, s.kids[pt]) && FirstCleaned(s, lists, lists[pt], |lists[pt]|)
    ensures Cleaned(s, lists, pt)
  {
    forall c | c in s.kids[pt] && Worth(s, c) ensures Cleaned(s, lists, c) { KeptIn(s, s.kids[pt], c); }
  }

  /** play_tree_cleanup: without a file the node itself is removed. */
  method Cleanup(pt: PlayTree, ghost k: nat, ghost s: Shape, ghost lists: map<PlayTree, seq<PlayTree>>)
    returns (r: PlayTree?, ghost now: map<PlayTree, seq<PlayTree>>)
    requires Partly(s, lists) && pt in s.kids && (Worth(s, pt) || Removable(s, lists, pt, k))
    modifies s.kids.Keys`parent, s.kids.Keys`prev, s.kids.Keys`next, s.kids.Keys`child
    ensures r == if HasFile(s, pt) then pt else null
    ensures Partly(s, now)
    ensures if r != null then Cleaner(s, lists, now) && Cleaned(s, now, pt)
        else Removable(s, lists, pt, k) && now == Removed(s, lists, pt, k)
    decreases Room(s, pt), 1
  {
    var valid := IsValid(pt, s, lists);
    if !valid {
      now := Removed(s, lists, pt, k);
      if pt != s.root { assert UpOk(s, pt); }
      DropNode(pt, k, s, lists);
      return null, now;
    }
    assert Listed(s, lists, pt);
    var first := DropInvalid(pt, s, lists);
    ghost var was := lists[pt := Kept(s, s.kids[pt])];
    now := CleanKids(pt, first, s, was);
    forall q | q in s.kids ensures now[q] == lists[q] || now[q] == Kept(s, s.kids[q]) { assert was[q] == was[q]; }
    r := pt;
  }

  /** The second loop of play_tree_cleanup. */
  method CleanKids(pt: PlayTree, first: PlayTree?, ghost s: Shape, ghost lists: map<PlayTree, seq<PlayTree>>)
    returns (ghost now: map<PlayTree, seq<PlayTree>>)
    requires Partly(s, lists) && pt in s.kids && lists[pt] == Kept(s, s.kids[pt]) && first == At(lists[pt], 0)
    modifies s.kids.Keys`parent, s.kids.Keys`prev, s.kids.Keys`next, s.kids.Keys`child
    ensures Partly(s, now) && Cleaner(s, lists, now) && Cleaned(s, now, pt)
    decreases Room(s, pt), 0
  {
    now := lists;
    ghost var list, k := now[pt], 0;
    var iter := first;
    while iter != null
      invariant 0 <= k <= |list| && iter == At(list, k)
      invariant Partly(s, now) && Cleaner(s, lists, now) && now[pt] == list
      invariant FirstCleaned(s, now, list, k)
      decreases |list| - k
    {
      assert Listed(s, now, pt) && InList(list, k, pt);
      var tmp := iter;
      iter := iter.next;
      KeptKid(s, pt, tmp);
      ghost var was := now;
      var kept;
      kept, now := Cleanup(tmp, k, s, was);
      NextCleaned(s, lists, was, now, pt, k);
      k := k + 1;
    }
    AllCleaned(s, now, pt);
  }
}

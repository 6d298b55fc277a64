/** A shuffled flat list: every round plays every entry once, whatever is drawn. */
module IterShuffle {
  import opened Util
  import opened ConfigModel
  import opened PlayTrees
  import opened IterModel

  /** The root's children are all entries, and are shuffled. */
  ghost predicate FlatShuffled(p: Playlist) {
    && PlaylistOk(p) && p.shape.root in p.shuffled && Entries(p) != []
    && forall i | 0 <= i < |Entries(p)| :: ChildOk(p.shape, p.shape.root, i) && p.shape.kids[Entries(p)[i]] == []
  }

  ghost function Entries(p: Playlist): seq<PlayTree>
    requires PlaylistOk(p)
  {
    p.shape.kids[p.shape.root]
  }

  ghost function EntrySet(p: Playlist): set<PlayTree>
    requires PlaylistOk(p)
  {
    set n | n in Entries(p)
  }

  /** A configured walk standing on an entry it has marked as played. */
  ghost predicate Playing(p: Playlist, it: Iter) {
    && FlatShuffled(p) && Ready(p, it) && it.cfg.Some?
    && it.tree in Entries(p) && it.tree in it.played && it.played <= EntrySet(p)
  }

  lemma {:induction false} SetOfDistinct(s: Shape, n: nat)
    requires ShapeOk(s) && n <= |s.kids[s.root]|
    ensures |set i | 0 <= i < n :: s.kids[s.root][i]| == n
  {
    if n > 0 {
      SetOfDistinct(s, n - 1);
      var before := set i | 0 <= i < n - 1 :: s.kids[s.root][i];
      assert ChildOk(s, s.root, n - 1);
      forall j | 0 <= j < n - 1 ensures s.kids[s.root][j] != s.kids[s.root][n - 1] { assert ChildOk(s, s.root, j); }
      assert (set i | 0 <= i < n :: s.kids[s.root][i]) == before + {s.kids[s.root][n - 1]};
    }
  }

  lemma EntryCount(p: Playlist)
    requires PlaylistOk(p)
    ensures |EntrySet(p)| == |Entries(p)|
  {
    SetOfDistinct(p.shape, |Entries(p)|);
    assert EntrySet(p) == set i | 0 <= i < |Entries(p)| :: Entries(p)[i];
  }

  lemma {:induction false} NoneUnplayed(nodes: seq<PlayTree>, played: set<PlayTree>)
    ensures Unplayed(nodes, played) == [] <==> forall n <- nodes :: n in played
  {
    if nodes != [] { NoneUnplayed(nodes[1..], played); }
  }

  /** Nothing is left to draw exactly when every entry has been played. */
  lemma ExhaustedIff(p: Playlist, it: Iter)
    requires FlatShuffled(p) && Ready(p, it) && it.tree in Entries(p) && it.played <= EntrySet(p)
    ensures Siblings(p.shape, it.tree) == Entries(p) && Shuffling(p, it.tree)
    ensures Exhausted(p, it) <==> it.played == EntrySet(p)
  {
    var i := IndexOf(Entries(p), it.tree);
    assert ChildOk(p.shape, p.shape.root, i);
    NoneUnplayed(Entries(p), it.played);
    if it.played == EntrySet(p) {
      assert forall n <- Entries(p) :: n in EntrySet(p);
    } else {
      var n :| n in EntrySet(p) && n !in it.played;
    }
  }

  /** r has played one entry more than the walk had, one that was not played yet. */
  ghost predicate PlaysOne(p: Playlist, before: set<PlayTree>, loops: map<PlayTree, int>, r: Iter, status: Status) {
    && status == ENTRY && Playing(p, r) && r.tree !in before && r.played == before + {r.tree} && r.loops == loops
  }

  /** With something left to draw, a drawn entry is entered. */
  lemma Drawn(p: Playlist, it: Iter, d: int) returns (r: Iter)
    requires FlatShuffled(p) && Ready(p, it) && it.cfg.Some? && it.rndMode
    requires it.tree in Entries(p) && it.played < EntrySet(p)
    ensures Shuffling(p, it.tree) && StepShuffled(p, it, d, false) == (r, ENTRY)
    ensures PlaysOne(p, it.played, it.loops, r, ENTRY)
  {
    ExhaustedIff(p, it);
    var (pt, next) := Draw(p, it);
    var i := IndexOf(Entries(p), pt);
    assert ChildOk(p.shape, p.shape.root, i) && p.shape.kids[pt] == [];
    r := Enter(p, next.(tree := pt));
  }

  lemma LeftInList(p: Playlist, it: Iter, d: int) returns (here: Iter)
    requires FlatShuffled(p) && Ready(p, it) && it.cfg.Some? && it.tree in Entries(p)
    ensures here == Leave(p, it) && here.rndMode && Shuffling(p, it.tree)
        && Step(p, it, d, false) == StepShuffled(p, here, d, false)
    ensures here.tree == it.tree && here.played == it.played && here.loops == it.loops && here.cfg.Some?
  {
    here := Leave(p, it);
    var i := IndexOf(Entries(p), it.tree);
    assert ChildOk(p.shape, p.shape.root, i);
  }

  /** Another round: all marks are cleared and the root's counter goes down. */
  lemma NewRound(p: Playlist, here: Iter, d: int) returns (r: Iter)
    requires FlatShuffled(p) && Ready(p, here) && here.cfg.Some? && here.rndMode && here.tree in Entries(p)
    requires here.played == EntrySet(p) && here.loops[p.shape.root] != 0
    ensures Shuffling(p, here.tree) && StepShuffled(p, here, d, false) == (r, ENTRY)
    ensures PlaysOne(p, {}, Replay(p, here).loops, r, ENTRY)
  {
    ExhaustedIff(p, here);
    assert here.tree in EntrySet(p);
    var again := LeftInList(p, Replay(p, here), 0);
    r := Drawn(p, again, 0);
  }

  ghost predicate Outcome(p: Playlist, it: Iter, r: Iter, status: Status)
    requires Playing(p, it)
  {
    if it.played < EntrySet(p) then PlaysOne(p, it.played, it.loops, r, status)
    else if it.loops[p.shape.root] == 0 then status == END
    else PlaysOne(p, {}, Replay(p, it).loops, r, status)
  }

  /** One step of a shuffled walk: another unplayed entry; or a new round, if the root's loop
      counter allows one; or the end. */
  lemma ShuffledStep(p: Playlist, it: Iter, d: int) returns (r: Iter, status: Status)
    requires Playing(p, it)
    ensures (r, status) == Step(p, it, d, false) && Outcome(p, it, r, status)
  {
    var here := LeftInList(p, it, d);
    status := ENTRY;
    if it.played < EntrySet(p) {
      r := Drawn(p, here, d);
    } else if it.loops[p.shape.root] == 0 {
      ExhaustedIff(p, here);
      r, status := here, END;
    } else {
      r := NewRound(p, here, d);
    }
  }

  /** Any entry not played yet in this round may be the next, given the right draw. */
  lemma AnyEntryCanCome(p: Playlist, it: Iter, e: PlayTree, d: int) returns (draw: nat)
    requires Playing(p, it) && e in Entries(p) && e !in it.played
    ensures var r := Step(p, it.(draws := [draw]), d, false); r.1 == ENTRY && r.0.tree == e
  {
    var free := Unplayed(Entries(p), it.played);
    draw := IndexOf(free, e);
    var at := it.(draws := [draw]);
    assert e in EntrySet(p);
    var here := LeftInList(p, at, d);
    ExhaustedIff(p, here);
    assert Draw(p, here).0 == e;
    assert ChildOk(p.shape, p.shape.root, IndexOf(Entries(p), e)) && p.shape.kids[e] == [];
  }

  // ---------------------------------------------------------------- whole runs

  /** A run of steps that all stop at entries, in any directions and with any draws. */
  ghost predicate ShuffledRun(p: Playlist, states: seq<Iter>, ds: seq<int>) {
    && |states| == |ds| + 1 && Playing(p, states[0])
    && forall i | 0 <= i < |ds| :: Ready(p, states[i]) && Step(p, states[i], ds[i], false) == (states[i + 1], ENTRY)
  }

  /** What l more rounds of n entries and the rest of a round with k played come to. */
  ghost function Pending(l: int, n: int, k: int): int
    decreases if l > 0 then l else 0
  {
    if l <= 0 then n - k else n + Pending(l - 1, n, k)
  }

  lemma {:induction false} PendingFacts(l: int, n: int, k: int)
    requires l >= 0 && 0 < k <= n
    ensures Pending(l, n, k) >= n - k
    ensures Pending(l, n, k + 1) == Pending(l, n, k) - 1
    ensures Pending(l, n, k) == Pending(l, n, n) + (n - k)
    ensures 1 + Pending(l, n, 1) == (l + 1) * n
    decreases l
  {
    if l > 0 { PendingFacts(l - 1, n, k); }
  }

  /** From the last entry of a round: the next round's first entry is one of the n it brings. */
  lemma PendingRound(l: int, n: int)
    requires l > 0 && n > 0
    ensures Pending(l, n, n) > 0 && Pending(l - 1, n, 1) == Pending(l, n, n) - 1
  {
    PendingFacts(l - 1, n, 1);
  }

  /** The entries a walk will still play, this round's and those of the rounds to come. */
  ghost function Left(p: Playlist, it: Iter): int
    requires Ready(p, it)
  {
    Pending(it.loops[p.shape.root], |EntrySet(p)|, |it.played|)
  }

  lemma PlayedCount(p: Playlist, it: Iter)
    requires Playing(p, it)
    ensures 0 < |it.played| <= |EntrySet(p)| && (it.played < EntrySet(p) <==> |it.played| < |EntrySet(p)|)
  {
    Smaller(it.played, EntrySet(p));
    if it.played < EntrySet(p) {
      var n :| n in EntrySet(p) && n !in it.played;
      Smaller(it.played, EntrySet(p) - {n});
    } else {
      assert it.played == EntrySet(p);
    }
  }

  lemma {:induction false} Smaller(a: set<PlayTree>, b: set<PlayTree>)
    requires a <= b
    ensures |a| <= |b|
    decreases a
  {
    if a != {} {
      var n :| n in a;
      Smaller(a - {n}, b - {n});
    }
  }

  /** The outcome counts one entry down, and is the end when none is left. */
  ghost predicate CountsDown(p: Playlist, it: Iter, r: Iter, status: Status)
    requires Ready(p, it)
  {
    if Left(p, it) > 0 then
      status == ENTRY && Playing(p, r) && r.loops[p.shape.root] >= 0 && Left(p, r) == Left(p, it) - 1
    else
      status == END
  }

  /** One more of this round. */
  lemma OneCountsDown(p: Playlist, it: Iter, r: Iter)
    requires Playing(p, it) && it.loops[p.shape.root] >= 0 && it.played < EntrySet(p)
    requires PlaysOne(p, it.played, it.loops, r, ENTRY)
    ensures CountsDown(p, it, r, ENTRY)
  {
    PlayedCount(p, it);
    PendingFacts(it.loops[p.shape.root], |EntrySet(p)|, |it.played|);
    assert |r.played| == |it.played| + 1;
  }

  /** The first of the next round. */
  lemma RoundCountsDown(p: Playlist, it: Iter, r: Iter)
    requires Playing(p, it) && it.loops[p.shape.root] > 0 && it.played == EntrySet(p)
    requires PlaysOne(p, {}, Replay(p, it).loops, r, ENTRY)
    ensures CountsDown(p, it, r, ENTRY)
  {
    PlayedCount(p, it);
    PendingRound(it.loops[p.shape.root], |EntrySet(p)|);
    assert |r.played| == 1;
  }

  lemma ShuffledCountdown(p: Playlist, it: Iter, d: int) returns (r: Iter, status: Status)
    requires Playing(p, it) && it.loops[p.shape.root] >= 0
    ensures (r, status) == Step(p, it, d, false) && CountsDown(p, it, r, status)
  {
    r, status := ShuffledStep(p, it, d);
    PlayedCount(p, it);
    assert !(it.played < EntrySet(p)) ==> it.played == EntrySet(p);
    if it.played < EntrySet(p) {
      OneCountsDown(p, it, r);
    } else if it.loops[p.shape.root] > 0 {
      RoundCountsDown(p, it, r);
    }
  }

  lemma {:induction false} RunCountsDown(p: Playlist, states: seq<Iter>, ds: seq<int>)
    requires ShuffledRun(p, states, ds) && states[0].loops[p.shape.root] >= 0
    ensures Playing(p, states[|ds|]) && states[|ds|].loops[p.shape.root] >= 0
    ensures Left(p, states[|ds|]) == Left(p, states[0]) - |ds|
    decreases |ds|
  {
    if |ds| > 0 {
      var n := |ds| - 1;
      RunCountsDown(p, states[..|ds|], ds[..n]);
      var r, status := ShuffledCountdown(p, states[n], ds[n]);
    }
  }

  ghost function TreeSet(states: seq<Iter>): set<PlayTree> {
    set i | 0 <= i < |states| :: states[i].tree
  }

  lemma TreeSetLast(states: seq<Iter>)
    requires states != []
    ensures TreeSet(states) == TreeSet(states[..|states| - 1]) + {states[|states| - 1].tree}
  {
  }

  lemma NextOfRound(p: Playlist, it: Iter, d: int, r: Iter)
    requires Playing(p, it) && |it.played| < |EntrySet(p)| && Step(p, it, d, false) == (r, ENTRY)
    ensures Playing(p, r) && r.tree !in it.played && r.played == it.played + {r.tree}
  {
    PlayedCount(p, it);
    var r', status := ShuffledStep(p, it, d);
  }

  /** Within a round the marks are exactly the entries visited, each of them once. */
  lemma {:induction false} RoundMarks(p: Playlist, states: seq<Iter>, ds: seq<int>)
    requires ShuffledRun(p, states, ds) && states[0].played == {states[0].tree} && |states| <= |EntrySet(p)|
    ensures Playing(p, states[|ds|]) && states[|ds|].played == TreeSet(states) && |TreeSet(states)| == |states|
    decreases |ds|
  {
    var n := |ds|;
    if n > 0 {
      RoundMarks(p, states[..n], ds[..n - 1]);
      NextOfRound(p, states[n - 1], ds[n - 1], states[n]);
      TreeSetLast(states);
    } else {
      assert TreeSet(states) == {states[0].tree};
    }
  }

  /** A whole round visits every entry exactly once, for any draws. */
  lemma RoundIsPermutation(p: Playlist, states: seq<Iter>, ds: seq<int>)
    requires ShuffledRun(p, states, ds) && states[0].played == {states[0].tree} && |states| == |Entries(p)|
    ensures TreeSet(states) == EntrySet(p)
    ensures forall i, j | 0 <= i < j < |states| :: states[i].tree != states[j].tree
  {
    EntryCount(p);
    RoundMarks(p, states, ds);
    PlayedCount(p, states[|ds|]);
    DistinctTrees(states);
  }

  lemma {:induction false} DistinctTrees(states: seq<Iter>)
    requires |TreeSet(states)| == |states|
    ensures forall i, j | 0 <= i < j < |states| :: states[i].tree != states[j].tree
    decreases |states|
  {
    var n := |states| - 1;
    if n >= 0 {
      TreeSetLast(states);
      TreeCount(states[..n]);
      DistinctTrees(states[..n]);
    }
  }

  lemma {:induction false} TreeCount(states: seq<Iter>)
    ensures |TreeSet(states)| <= |states|
    decreases |states|
  {
    if states != [] {
      var n := |states| - 1;
      TreeSetLast(states);
      TreeCount(states[..n]);
    } else {
      assert TreeSet(states) == {};
    }
  }

  /** Creation draws the first entry of the first round. */
  lemma ShuffledStart(p: Playlist, loops: map<PlayTree, int>, c: Cfg, draws: seq<nat>) returns (first: Iter)
    requires FlatShuffled(p) && loops.Keys == p.shape.kids.Keys
    ensures Ready(p, Start(p, loops, {}, Some(c), draws))
    ensures Step(p, Start(p, loops, {}, Some(c), draws), 0, false) == (first, ENTRY)
    ensures PlaysOne(p, {}, loops, first, ENTRY)
  {
    var it := Leave(p, Start(p, loops, {}, Some(c), draws));
    assert ChildOk(p.shape, p.shape.root, 0);
    var below := Within(p, it, 0);
    assert Entries(p)[0] in EntrySet(p);
    var here := LeftInList(p, below, 0);
    first := Drawn(p, here, 0);
    assert StepInOrder(p, it, 0, false) == Arrive(p, it, it.tree, 0, false) == Down(p, it, 0, false);
  }

  /** Every run that begins with the creation of an iterator. */
  ghost predicate ShuffledPlay(p: Playlist, loops: map<PlayTree, int>, c: Cfg, draws: seq<nat>, states: seq<Iter>,
      ds: seq<int>) {
    && FlatShuffled(p) && loops.Keys == p.shape.kids.Keys && |states| == |ds| + 1
    && Step(p, Start(p, loops, {}, Some(c), draws), 0, false) == (states[0], ENTRY)
    && forall i | 0 <= i < |ds| :: Ready(p, states[i]) && Step(p, states[i], ds[i], false) == (states[i + 1], ENTRY)
  }

  lemma PlayIsRun(p: Playlist, loops: map<PlayTree, int>, c: Cfg, draws: seq<nat>, states: seq<Iter>, ds: seq<int>)
    requires ShuffledPlay(p, loops, c, draws, states, ds)
    ensures ShuffledRun(p, states, ds) && states[0].played == {states[0].tree} && states[0].loops == loops
  {
    var first := ShuffledStart(p, loops, c, draws);
  }

  /** A shuffled list whose root loops l times plays l + 1 rounds: from its creation on, whatever the draws, every
      run can go on until exactly l + 1 times the number of entries have been played, and then it is at the end. */
  lemma ShuffledPlaysEveryRound(p: Playlist, loops: map<PlayTree, int>, c: Cfg, draws: seq<nat>, states: seq<Iter>,
      ds: seq<int>, d: int) returns (next: Iter, status: Status)
    requires ShuffledPlay(p, loops, c, draws, states, ds) && loops[p.shape.root] >= 0
    ensures Ready(p, states[|ds|]) && (next, status) == Step(p, states[|ds|], d, false)
    ensures var all := (loops[p.shape.root] + 1) * |Entries(p)|;
      |states| <= all && status == if |states| < all then ENTRY else END
  {
    hide Step, ShapeOk, PlaylistOk, Left;
    PlayIsRun(p, loops, c, draws, states, ds);
    var left := VisitedAndLeft(p, states, ds);
    next, status := ShuffledCountdown(p, states[|ds|], d);
  }

  /** The first round plays every entry exactly once, for any draws. */
  lemma FirstRoundIsPermutation(p: Playlist, loops: map<PlayTree, int>, c: Cfg, draws: seq<nat>, states: seq<Iter>,
      ds: seq<int>)
    requires ShuffledPlay(p, loops, c, draws, states, ds) && |states| == |Entries(p)|
    ensures TreeSet(states) == EntrySet(p)
    ensures forall i, j | 0 <= i < j < |states| :: states[i].tree != states[j].tree
  {
    PlayIsRun(p, loops, c, draws, states, ds);
    RoundIsPermutation(p, states, ds);
  }

  ghost function AllRounds(p: Playlist, it: Iter): int
    requires Ready(p, it)
  {
    (it.loops[p.shape.root] + 1) * |Entries(p)|
  }

  lemma VisitedAndLeft(p: Playlist, states: seq<Iter>, ds: seq<int>) returns (left: int)
    requires ShuffledRun(p, states, ds) && states[0].played == {states[0].tree} && states[0].loops[p.shape.root] >= 0
    ensures Playing(p, states[|ds|]) && states[|ds|].loops[p.shape.root] >= 0
    ensures left == Left(p, states[|ds|]) >= 0 && |states| + left == AllRounds(p, states[0])
  {
    RunCountsDown(p, states, ds);
    left := Left(p, states[|ds|]);
    LeftIsNatural(p, states[|ds|]);
    EntryCount(p);
    PlayedCount(p, states[0]);
    PendingFacts(states[0].loops[p.shape.root], |Entries(p)|, 1);
  }

  lemma LeftIsNatural(p: Playlist, it: Iter)
    requires Playing(p, it) && it.loops[p.shape.root] >= 0
    ensures Left(p, it) >= 0
  {
    PlayedCount(p, it);
    PendingFacts(it.loops[p.shape.root], |EntrySet(p)|, |it.played|);
  }
}

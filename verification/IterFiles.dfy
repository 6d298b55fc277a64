/** The files a playlist gives out: play_tree_iter_get_file and pt_iter_get_file of playtree.c. */
module IterFiles {
  import opened Util
  import opened ConfigModel
  import opened PlayTrees
  import opened IterModel
  import opened IterTheorems

  /** The entries, and only they, name files. */
  ghost predicate FilesOk(p: Playlist) {
    PlaylistOk(p) && forall n | n in p.shape.kids :: p.files[n] != [] <==> n in p.shape.entries
  }

  /** The file cursor is one that the current node's files allow. */
  ghost predicate CursorOk(p: Playlist, it: Iter)
    requires Ready(p, it)
  {
    p.files[it.tree] != [] ==> it.numFiles == |p.files[it.tree]| && -1 <= it.file < it.numFiles
  }

  /** Asked for the current file again, the iterator stands in a file and not before the first one, where
      play_tree_iter_get_file would read files[-1]. */
  ghost predicate Askable(p: Playlist, it: Iter, d: int)
    requires Ready(p, it)
  {
    d == 0 && p.files[it.tree] != [] ==> it.file >= 0
  }

  /** play_tree_iter_get_file */
  ghost function GetFile(p: Playlist, it: Iter, d: int): (r: (Iter, Option<string>))
    requires Ready(p, it) && CursorOk(p, it) && Askable(p, it, d)
    ensures Ready(p, r.0) && CursorOk(p, r.0)
  {
    var files := p.files[it.tree];
    if files == [] || it.file >= it.numFiles - 1 then (it, None)
    else
      var file := if d > 0 then it.file + 1 else if d == 0 then it.file else if it.file <= 0 then it.numFiles - 1
          else it.file - 1;
      (it.(file := file), Some(files[file]))
  }

  /** pt_iter_get_file: the next file of the entry, else the first file of the next entry. */
  ghost function NextFile(p: Playlist, it: Iter, d: int): (r: (Iter, Option<string>))
    requires FilesOk(p) && Ready(p, it) && CursorOk(p, it) && Askable(p, it, d)
    ensures Ready(p, r.0)
  {
    var (here, found) := GetFile(p, it, d);
    if found.Some? || d == 0 then (here, found) else NextEntryFile(p, here, d)
  }

  ghost function NextEntryFile(p: Playlist, it: Iter, d: int): (r: (Iter, Option<string>))
    requires FilesOk(p) && Ready(p, it) && d != 0
    ensures Ready(p, r.0)
  {
    var (there, status) := Step(p, it, d, false);
    if status != ENTRY then (there, None)
    else
      StepAtEntry(p, it, d);
      GetFile(p, there, d)
  }

  // ---------------------------------------------------------------- an entry is stood before, not in

  /** The iterator has just stopped at an entry. */
  ghost predicate AtEntry(p: Playlist, it: Iter)
    requires Ready(p, it)
  {
    it.tree in p.shape.entries && it.file == -1 && it.numFiles == |p.files[it.tree]|
  }

  lemma {:induction false} StepAtEntry(p: Playlist, it: Iter, d: int)
    requires Ready(p, it)
    ensures var (r, status) := Step(p, it, d, false); status == ENTRY ==> AtEntry(p, r)
    decreases if d == 0 then 0 else p.shape.depth[it.tree] + 1, Room(p.shape, it.tree),
        if Exhausted(p, it) then 1 else 0, 4
  {
    var here := Leave(p, it);
    if here.rndMode {
      ShuffledAtEntry(p, here, d);
    } else {
      var all, i := Siblings(p.shape, it.tree), Pos(p.shape, it.tree);
      if 0 <= i + d < |all| {
        SiblingFacts(p.shape, it.tree, i + d);
        ArriveAtEntry(p, here, all[i + d], Sign(d));
      } else {
        OffTheEndAtEntry(p, here, Leftover(d, i, |all|));
      }
    }
  }

  lemma {:induction false} ShuffledAtEntry(p: Playlist, it: Iter, d: int)
    requires Ready(p, it) && it.rndMode == Shuffling(p, it.tree) == true && it.file == -1
    ensures var (r, status) := StepShuffled(p, it, d, false); status == ENTRY ==> AtEntry(p, r)
    decreases if d == 0 then 0 else p.shape.depth[it.tree] + 1, Room(p.shape, it.tree),
        if Exhausted(p, it) then 1 else 0, 3
  {
    if Exhausted(p, it) {
      if it.loops[p.shape.root] != 0 { StepAtEntry(p, Replay(p, it), 0); }
    } else {
      var (pt, next) := Draw(p, it);
      ArriveAtEntry(p, next, pt, d);
    }
  }

  lemma {:induction false} OffTheEndAtEntry(p: Playlist, it: Iter, d: int)
    requires Ready(p, it) && d != 0
    ensures var (r, status) := StepOffTheEnd(p, it, d, false); status == ENTRY ==> AtEntry(p, r)
    decreases p.shape.depth[it.tree] + 1, Room(p.shape, it.tree), 0, 2
  {
    if LoopsAgain(p, it, d) {
      StepAtEntry(p, Rewind(p, it, d), 0);
    } else if it.tree != p.shape.root {
      StepAtEntry(p, Above(p, it), d);
    }
  }

  lemma {:induction false} ArriveAtEntry(p: Playlist, it: Iter, pt: PlayTree, d: int)
    requires Ready(p, it.(tree := pt)) && it.file == -1
    ensures var (r, status) := Arrive(p, it, pt, d, false); status == ENTRY ==> AtEntry(p, r)
    decreases 0, Room(p.shape, pt), 0, 2
  {
    var at := it.(tree := pt);
    if p.shape.kids[pt] != [] { StepAtEntry(p, Within(p, at, d), 0); }
  }

  // ---------------------------------------------------------------- every file once, in order

  /** The files of the nodes, one after the other. */
  function FilesOf(p: Playlist, nodes: seq<PlayTree>): seq<string> {
    if nodes == [] then []
    else (if nodes[0] in p.files then p.files[nodes[0]] else []) + FilesOf(p, nodes[1..])
  }

  /** The files still to be given out. */
  ghost function Unread(p: Playlist, it: Iter): seq<string>
    requires Ready(p, it) && CursorOk(p, it)
  {
    (if p.files[it.tree] != [] then p.files[it.tree][it.file + 1..] else []) + FilesOf(p, Coming(p, it))
  }

  ghost predicate Reading(p: Playlist, it: Iter) {
    FilesOk(p) && Finite(p, it) && CursorOk(p, it)
  }

  /** At the end of a list whose root is itself an entry, the iterator stands before that entry again. */
  lemma LoneEntryEnds(p: Playlist, it: Iter, r: Iter)
    requires Reading(p, it) && p.shape.root in p.shape.entries && Step(p, it, 1, false) == (r, END)
    ensures CursorOk(p, r) && r.file == -1
  {
    OnlyRoot(p, it.tree);
    var here := Leave(p, it);
    assert Step(p, it, 1, false) == StepInOrder(p, here, 1, false);
    assert StepInOrder(p, here, 1, false) == Up(p, here, 1, false);
  }

  lemma {:induction false} OnlyRoot(p: Playlist, n: PlayTree)
    requires PlaylistOk(p) && p.shape.root in p.shape.entries && n in p.shape.kids
    ensures n == p.shape.root
    decreases p.shape.depth[n]
  {
    if n != p.shape.root {
      assert UpOk(p.shape, n) && ChildOk(p.shape, p.shape.up[n], p.shape.pos[n]);
      OnlyRoot(p, p.shape.up[n]);
    }
  }

  /** What a call leaves unread.  After the last file there is nothing more, unless the list is a lone entry. */
  ghost function UnreadNext(p: Playlist, unread: seq<string>): seq<string>
    requires PlaylistOk(p)
  {
    if unread != [] then unread[1..] else if p.shape.root in p.shape.entries then p.files[p.shape.root] else []
  }

  lemma FirstApart<T>(a: seq<T>, i: nat, b: seq<T>)
    requires i < |a|
    ensures var all := a[i..] + b; all[0] == a[i] && all[1..] == a[i + 1..] + b
  {
  }

  /** Not yet at the last file of its entry, the iterator goes on to the next one there. */
  lemma NextInEntry(p: Playlist, it: Iter)
    requires Reading(p, it) && p.files[it.tree] != [] && it.file < it.numFiles - 1
    ensures var r, unread := it.(file := it.file + 1), Unread(p, it);
      && unread != [] && NextFile(p, it, 1) == (r, Some(unread[0])) && Reading(p, r) && Unread(p, r) == unread[1..]
  {
    FirstApart(p.files[it.tree], it.file + 1, FilesOf(p, Coming(p, it)));
  }

  /** A call gives the next unread file, whether it lies in this entry or the next. */
  lemma NextFileReads(p: Playlist, it: Iter) returns (r: Iter, file: Option<string>)
    requires Reading(p, it)
    ensures NextFile(p, it, 1) == (r, file) && Reading(p, r)
    ensures Unread(p, r) == UnreadNext(p, Unread(p, it))
    ensures file == if Unread(p, it) == [] then None else Some(Unread(p, it)[0])
  {
    r, file := NextFile(p, it, 1).0, NextFile(p, it, 1).1;
    if p.files[it.tree] == [] || it.file >= it.numFiles - 1 {
      assert Unread(p, it) == FilesOf(p, Coming(p, it));
      EntryOver(p, it);
    } else {
      NextInEntry(p, it);
    }
  }

  /** With no file left in this entry, a call goes on to the next one. */
  lemma EntryOver(p: Playlist, it: Iter)
    requires Reading(p, it) && GetFile(p, it, 1) == (it, None) && Unread(p, it) == FilesOf(p, Coming(p, it))
    ensures var (r, file) := NextFile(p, it, 1);
      && Reading(p, r) && Unread(p, r) == UnreadNext(p, Unread(p, it))
      && file == if Unread(p, it) == [] then None else Some(Unread(p, it)[0])
  {
    StepAtEntry(p, it, 1);
    StepAdvances(p, it);
    var (there, status) := Step(p, it, 1, false);
    if status == ENTRY {
      assert Coming(p, it)[0] == there.tree && Coming(p, it)[1..] == Coming(p, there);
      assert NextFile(p, it, 1) == GetFile(p, there, 1);
    } else {
      assert NextFile(p, it, 1) == (there, None);
      if p.shape.root in p.shape.entries { LoneEntryEnds(p, it, there); }
    }
  }

  /** A reader: one call gives a new state and perhaps a file. */
  type Reader = Iter -> (Iter, Option<string>)

  /** What k successive calls give. */
  ghost function Reads(next: Reader, it: Iter, k: nat): seq<Option<string>>
    decreases k
  {
    if k == 0 then [] else [next(it).1] + Reads(next, next(it).0, k - 1)
  }

  ghost function PlainReader(p: Playlist): Reader {
    it => if Reading(p, it) then NextFile(p, it, 1) else (it, None)
  }

  /** In state it, the reader is about to give the unread files. */
  ghost predicate Due(p: Playlist, it: Iter, unread: seq<string>) {
    Reading(p, it) && Unread(p, it) == unread && p.shape.root !in p.shape.entries
  }

  lemma ReadsOne(p: Playlist, it: Iter, unread: seq<string>)
    requires Due(p, it, unread)
    ensures var (r, file) := PlainReader(p)(it);
      if unread == [] then file == None && Due(p, r, []) else file == Some(unread[0]) && Due(p, r, unread[1..])
  {
    var r, file := NextFileReads(p, it);
  }

  /** The unread files one after the other, then nothing. */
  function Given(unread: seq<string>, k: nat): seq<Option<string>> {
    if k == 0 then []
    else if unread == [] then [None] + Given([], k - 1)
    else [Some(unread[0])] + Given(unread[1..], k - 1)
  }

  lemma {:induction false} GivenAt(unread: seq<string>, k: nat, i: nat)
    requires i < k
    ensures |Given(unread, k)| == k
    ensures Given(unread, k)[i] == if i < |unread| then Some(unread[i]) else None
  {
    if k > 1 { GivenAt(if unread == [] then [] else unread[1..], k - 1, if i > 0 then i - 1 else 0); }
  }

  lemma {:induction false} ReadsAll(p: Playlist, it: Iter, unread: seq<string>, k: nat)
    requires Due(p, it, unread)
    ensures Reads(PlainReader(p), it, k) == Given(unread, k)
    decreases k
  {
    if k > 0 {
      ReadsOne(p, it, unread);
      var (r, file) := PlainReader(p)(it);
      var rest := if unread == [] then [] else unread[1..];
      ReadsAll(p, r, rest, k - 1);
    }
  }

  /** From a created iterator, successive calls give the files of the root's flattening, each in its turn,
      and then nothing for ever. */
  lemma FilesInOrder(p: Playlist, start: Iter, k: nat) returns (first: Iter)
    requires PlainStart(p, start) && FilesOk(p) && p.shape.root !in p.shape.entries
    ensures Ready(p, start) && Step(p, start, 0, false) == (first, ENTRY)
    ensures var all := FilesOf(p, Flatten(p.shape, start.loops, p.shape.root));
      Due(p, first, all) && Reads(PlainReader(p), first, k) == Given(all, k)
  {
    first := Created(p, start);
    StepAtEntry(p, start, 0);
    var all := FilesOf(p, [first.tree] + Coming(p, first));
    assert Unread(p, first) == all by {
      assert ([first.tree] + Coming(p, first))[1..] == Coming(p, first);
    }
    ReadsAll(p, first, all, k);
  }

  /** A list that is one entry never runs out: after its last file comes its first one again. */
  lemma LoneEntryRestarts(p: Playlist, it: Iter) returns (again: Iter, next: Iter)
    requires Reading(p, it) && p.shape.root in p.shape.entries && Unread(p, it) == []
    ensures NextFile(p, it, 1) == (again, None) && Reading(p, again)
        && NextFile(p, again, 1) == (next, Some(p.files[p.shape.root][0]))
  {
    var none, first;
    again, none := NextFileReads(p, it);
    next, first := NextFileReads(p, again);
  }

  // ---------------------------------------------------------------- backward in one entry

  /** A call backward gives the file before the current one, and from the first one, or from before it, the last; at the
      last file there is none more, in either direction and for a call that asks for the same again. */
  lemma BackInFiles(p: Playlist, it: Iter, d: int)
    requires Ready(p, it) && CursorOk(p, it) && p.files[it.tree] != []
    ensures var files := p.files[it.tree];
      && (d < 0 && 0 < it.file < |files| - 1
          ==> GetFile(p, it, d) == (it.(file := it.file - 1), Some(files[it.file - 1])))
      && (d < 0 && it.file <= 0 && |files| > 1
          ==> GetFile(p, it, d) == (it.(file := |files| - 1), Some(files[|files| - 1])))
      && (d == 0 && 0 <= it.file < |files| - 1 ==> GetFile(p, it, d) == (it, Some(files[it.file])))
      && (it.file == |files| - 1 && (d != 0 || it.file >= 0) ==> GetFile(p, it, d) == (it, None))
  {
  }

  /** One file on and one back gives the file before again, unless it was the last that was come to. */
  lemma FileOnAndBack(p: Playlist, it: Iter, on: Iter)
    requires Ready(p, it) && CursorOk(p, it) && p.files[it.tree] != [] && 0 <= it.file < |p.files[it.tree]| - 2
    requires GetFile(p, it, 1).0 == on
    ensures CursorOk(p, on) && GetFile(p, on, -1) == (it, Some(p.files[it.tree][it.file]))
  {
  }
}

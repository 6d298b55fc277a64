/** Which times of the picture an edit decision list mutes and skips, told by the lines of its file. */
module EditTimes {
  import opened Util
  import opened EditLists
  import opened EditTraversal

  /** The lines that count: well formed, not empty, and each behind the end of the last one that counts. */
  function Counted(lines: seq<Option<Line>>, last: Option<real>): (r: seq<Line>)
    decreases lines
  {
    if lines == [] then []
    else if lines[0].None? then Counted(lines[1..], last)
    else
      var l := lines[0].value;
      if l.start < l.stop && (last.Some? ==> last.value < l.start) then [l] + Counted(lines[1..], Some(l.stop))
      else Counted(lines[1..], last)
  }

  /** The end of the last record. */
  function LastStop(recs: seq<Rec>): Option<real> {
    if recs == [] then None else Some(recs[|recs| - 1].stop)
  }

  /** The records of lines that count. */
  function RecordsOfAll(lines: seq<Line>): seq<Rec> {
    if lines == [] then [] else RecordsOf(lines[0]) + RecordsOfAll(lines[1..])
  }

  lemma {:induction false} ReadsCounted(recs: seq<Rec>, lines: seq<Option<Line>>)
    ensures ReadAll(recs, lines) == recs + RecordsOfAll(Counted(lines, LastStop(recs)))
    decreases lines
  {
    if lines == [] {
      assert recs + [] == recs;
    } else {
      var next := Add(recs, lines[0]);
      ReadsCounted(next, lines[1..]);
      if lines[0].Some? && Accepted(recs, lines[0].value) {
        var l := lines[0].value;
        assert LastStop(next) == Some(l.stop);
        assert recs + RecordsOf(l) + RecordsOfAll(Counted(lines[1..], Some(l.stop)))
            == recs + (RecordsOf(l) + RecordsOfAll(Counted(lines[1..], Some(l.stop))));
      }
    }
  }

  // ---------------------------------------------------------------- mutes

  /** One of the lines mutes the picture at time t. */
  predicate MutedBy(lines: seq<Line>, t: real) {
    exists l <- lines :: l.action == MUTE && l.start <= t < l.stop
  }

  predicate Honest(lines: seq<Line>) {
    forall l <- lines :: !Deceptive(Some(l))
  }

  lemma MoreOpen(recs: seq<Rec>, all: seq<Rec>, more: seq<Rec>)
    requires all == recs + more
    ensures forall k {:trigger OpenAt(all, k)} | 0 <= k <= |recs| :: OpenAt(all, k) == OpenAt(recs, k)
  {
    forall k {:trigger OpenAt(all, k)} | 0 <= k <= |recs| ensures OpenAt(all, k) == OpenAt(recs, k) {
      OpenSnoc(recs, all, k);
    }
  }

  lemma InMuteOld(recs: seq<Rec>, all: seq<Rec>, more: seq<Rec>, i: nat, t: real)
    requires all == recs + more && !OpenAt(recs, |recs|) && i + 1 < |all| && i < |recs|
    ensures OpenAt(all, i + 1) && all[i].start <= t < all[i + 1].start ==> i + 1 < |recs| && InMute(recs, t)
  {
    MoreOpen(recs, all, more);
    if OpenAt(all, i + 1) && all[i].start <= t < all[i + 1].start {
      assert OpenAt(recs, i + 1);
      assert i + 1 != |recs|;
    }
  }

  /** One more line mutes just its own time more. */
  lemma MuteAdded(recs: seq<Rec>, l: Line, all: seq<Rec>, t: real)
    requires Paired(recs) && all == recs + RecordsOf(l) && l.start < l.stop && !Deceptive(Some(l))
    ensures InMute(all, t) <==> InMute(recs, t) || (l.action == MUTE && l.start <= t < l.stop)
  {
    var n := |recs|;
    MoreOpen(recs, all, RecordsOf(l));
    if InMute(recs, t) {
      var i :| 0 <= i < n - 1 && OpenAt(recs, i + 1) && recs[i].start <= t < recs[i + 1].start;
      assert OpenAt(all, i + 1) && all[i].start <= t < all[i + 1].start;
    }
    if l.action == MUTE {
      OpenNext(all, n);
      assert OpenAt(all, n + 1) && all[n].start == l.start && all[n + 1].start == l.stop;
    }
    if InMute(all, t) {
      var i :| 0 <= i < |all| - 1 && OpenAt(all, i + 1) && all[i].start <= t < all[i + 1].start;
      if i < n { InMuteOld(recs, all, RecordsOf(l), i, t); }
    }
  }

  lemma MutedByFirst(lines: seq<Line>, t: real)
    requires lines != []
    ensures MutedBy(lines, t) <==>
      (lines[0].action == MUTE && lines[0].start <= t < lines[0].stop) || MutedBy(lines[1..], t)
  {
    assert forall k :: k in lines <==> k == lines[0] || k in lines[1..];
  }

  lemma {:induction false} MutesOfAll(recs: seq<Rec>, lines: seq<Line>, all: seq<Rec>, t: real)
    requires Paired(recs) && Honest(lines) && all == recs + RecordsOfAll(lines)
    requires forall i | 0 <= i < |lines| :: lines[i].start < lines[i].stop
    ensures InMute(all, t) <==> InMute(recs, t) || MutedBy(lines, t)
    decreases lines
  {
    if lines == [] {
      assert recs + [] == recs;
    } else {
      var l, next, more := lines[0], recs + RecordsOf(lines[0]), lines[1..];
      assert l in lines && (forall k <- more :: k in lines) && all == next + RecordsOfAll(more);
      MuteAdded(recs, l, next, t);
      StillPaired(recs, l, next);
      MutesOfAll(next, more, all, t);
      MutedByFirst(lines, t);
    }
  }

  lemma StillPaired(recs: seq<Rec>, l: Line, all: seq<Rec>)
    requires Paired(recs) && all == recs + RecordsOf(l) && !Deceptive(Some(l))
    ensures Paired(all)
  {
    var more := RecordsOf(l);
    if l.action == MUTE {
      assert all == recs + [more[0]] + [more[1]];
      AddMute(recs, more[0], more[1], recs + [more[0]], all);
    } else {
      AddOther(recs, more[0], all);
    }
  }

  lemma {:induction false} CountedLast(lines: seq<Option<Line>>, last: Option<real>)
    ensures forall i | 0 <= i < |Counted(lines, last)| :: Counted(lines, last)[i].start < Counted(lines, last)[i].stop
    decreases lines
  {
    if lines != [] {
      CountedLast(lines[1..], last);
      if lines[0].Some? { CountedLast(lines[1..], Some(lines[0].value.stop)); }
    }
  }

  /** For every file whose counted lines are honest: the list read from it mutes exactly the times of its mute lines. */
  lemma FileMutes(lines: seq<Option<Line>>, t: real)
    requires Honest(Counted(lines, None))
    ensures InMute(ReadAll([], lines), t) <==> MutedBy(Counted(lines, None), t)
  {
    ReadsCounted([], lines);
    CountedLast(lines, None);
    MutesOfAll([], Counted(lines, None), ReadAll([], lines), t);
  }

  // ---------------------------------------------------------------- skips

  /** A record that skips from start to stop. */
  predicate Skips(recs: seq<Rec>, start: real, stop: real) {
    exists r <- recs :: r == Rec(start, stop, stop - start, SKIP)
  }

  predicate SkippedBy(lines: seq<Line>, start: real, stop: real) {
    exists l <- lines :: l.action != MUTE && ToShort(l.action) == SKIP && l.start == start && l.stop == stop
  }

  lemma SkipsEither(a: seq<Rec>, b: seq<Rec>, start: real, stop: real)
    ensures Skips(a + b, start, stop) <==> Skips(a, start, stop) || Skips(b, start, stop)
  {
    assert forall r :: r in a + b <==> r in a || r in b;
  }

  lemma SkipsOfOne(l: Line, start: real, stop: real)
    ensures Skips(RecordsOf(l), start, stop) <==>
      l.action != MUTE && ToShort(l.action) == SKIP && l.start == start && l.stop == stop
  {
    var more := RecordsOf(l);
    assert more[0] in more && forall r <- more :: r == more[0] || r == more[|more| - 1];
  }

  lemma {:induction false} SkipsOfAll(lines: seq<Line>, start: real, stop: real)
    ensures Skips(RecordsOfAll(lines), start, stop) <==> SkippedBy(lines, start, stop)
    decreases lines
  {
    if lines != [] {
      SkipsOfOne(lines[0], start, stop);
      SkipsEither(RecordsOf(lines[0]), RecordsOfAll(lines[1..]), start, stop);
      SkipsOfAll(lines[1..], start, stop);
      assert forall k :: k in lines <==> k == lines[0] || k in lines[1..];
    }
  }

  /** For every file: the list read from it has a record for each of its skip lines, from its start to its stop and as
      long, and no other record that skips. */
  lemma FileSkips(lines: seq<Option<Line>>, start: real, stop: real)
    ensures Skips(ReadAll([], lines), start, stop) <==> SkippedBy(Counted(lines, None), start, stop)
  {
    ReadsCounted([], lines);
    assert [] + RecordsOfAll(Counted(lines, None)) == RecordsOfAll(Counted(lines, None));
    SkipsOfAll(Counted(lines, None), start, stop);
  }

  lemma {:induction false} LengthsOfAll(lines: seq<Line>)
    ensures forall r <- RecordsOfAll(lines) :: r.length == r.stop - r.start
    decreases lines
  {
    if lines != [] {
      LengthsOfAll(lines[1..]);
      var more, rest := RecordsOf(lines[0]), RecordsOfAll(lines[1..]);
      assert forall r <- more :: r == more[0] || r == more[|more| - 1];
      assert forall r <- more + rest :: r in more || r in rest;
    }
  }

  /** For every file: each record is as long as it says. */
  lemma FileLengths(lines: seq<Option<Line>>)
    ensures forall r <- ReadAll([], lines) :: r.length == r.stop - r.start
  {
    ReadsCounted([], lines);
    assert [] + RecordsOfAll(Counted(lines, None)) == RecordsOfAll(Counted(lines, None));
    LengthsOfAll(Counted(lines, None));
  }

  // ---------------------------------------------------------------- where a seek leads

  /** After a forward seek the cursor stands on the first record that ends behind the place the seek has led to, and
      the parity of the mutes before it is edl_muted; seeking goes on. */
  lemma ForwardSeekLands(recs: seq<Rec>, p: Place, pts: real, lastPos: real, landed: real)
    requires p.cursor < |recs| && recs[p.cursor].start <= pts && recs[p.cursor].action == SKIP && p.seeking
    requires lastPos < landed
    ensures var (r, again) := Pass(recs, p, pts, Landed(lastPos, landed));
      && again && r.seeking && (r.cursor < |recs| ==> recs[r.cursor].stop > landed)
      && (forall i | 0 <= i < r.cursor :: recs[i].stop <= landed)
      && (r.muted <==> Odd(Mutes(recs, r.cursor)))
  {
    ReachFirst(recs, landed, 0);
  }

  lemma {:induction false} ReachFirst(recs: seq<Rec>, pts: real, k: nat)
    requires k <= |recs|
    ensures Reach(recs, pts, k) < |recs| ==> recs[Reach(recs, pts, k)].stop > pts
    ensures forall i | k <= i < Reach(recs, pts, k) :: recs[i].stop <= pts
    decreases |recs| - k
  {
    if k < |recs| && recs[k].stop <= pts { ReachFirst(recs, pts, k + 1); }
  }

  /** Exactly a seek that has led somewhere has the record looked at once more. */
  lemma LooksAgainIff(recs: seq<Rec>, p: Place, pts: real, seek: Seek)
    requires p.cursor <= |recs|
    ensures Pass(recs, p, pts, seek).1 <==>
      p.cursor < |recs| && recs[p.cursor].start <= pts && recs[p.cursor].action == SKIP && p.seeking && seek.Landed?
  {
  }

  /** A seek that has not got past the skip gives it up: the cursor moves on and the sound is on. */
  lemma BackwardSeekGivesUp(recs: seq<Rec>, p: Place, pts: real, lastPos: real, landed: real)
    requires p.cursor < |recs| && recs[p.cursor].start <= pts && recs[p.cursor].action == SKIP && p.seeking
    requires lastPos >= landed
    ensures Pass(recs, p, pts, Landed(lastPos, landed)).0 == Place(p.cursor + 1, false, true)
  {
  }

  /** When the input cannot be sought in, the cursor stays on the skip for good, whatever comes. */
  lemma NoSeekingStays(recs: seq<Rec>, p: Place, pts: real, events: seq<Event>)
    requires p.cursor < |recs| && recs[p.cursor].start <= pts && recs[p.cursor].action == SKIP && p.seeking
    ensures Follow(recs, Pass(recs, p, pts, NoSeeking).0, events) == p.(seeking := false)
  {
    StuckOn(recs, p.(seeking := false), events);
  }

  lemma {:induction false} StuckOn(recs: seq<Rec>, p: Place, events: seq<Event>)
    requires p.cursor < |recs| && recs[p.cursor].action == SKIP && !p.seeking
    ensures Follow(recs, p, events) == p
    decreases events
  {
    if events != [] { StuckOn(recs, p, events[1..]); }
  }

  // ---------------------------------------------------------------- numbers that are cut down

  /** A number that fits a short is kept, and any other loses a multiple of 65536. */
  lemma ShortIs(n: int, k: int)
    ensures -0x8000 <= n < 0x8000 ==> ToShort(n) == n
    ensures -0x8000 <= ToShort(n) < 0x8000 && ToShort(n + 0x1_0000 * k) == ToShort(n)
  {
    var m := n % 0x1_0000;
    assert (n + 0x1_0000 * k) % 0x1_0000 == m;
  }
}

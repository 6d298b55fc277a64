/** How mencoder.c follows an edit decision list: the cursor, and what edl_muted means. */
module EditTraversal {
  import opened Util
  import opened EditLists

  // ---------------------------------------------------------------- following the list

  datatype Seek = EndOfFile | NoSeeking | Landed(lastPos: real, pts: real)

  datatype Place = Place(cursor: nat, muted: bool, seeking: bool)

  /** The first record that does not end before pts. */
  function Reach(recs: seq<Rec>, pts: real, k: nat): (r: nat)
    requires k <= |recs|
    ensures k <= r <= |recs|
    decreases |recs| - k
  {
    if k == |recs| || recs[k].stop > pts then k else Reach(recs, pts, k + 1)
  }

  /** One pass over the record at the cursor, with the picture at pts; seek is what a seek would do.
      The result says whether the cursor's record is looked at once more. */
  function Pass(recs: seq<Rec>, p: Place, pts: real, seek: Seek): (r: (Place, bool))
    requires p.cursor <= |recs|
    ensures r.0.cursor <= |recs|
  {
    if p.cursor == |recs| || pts < recs[p.cursor].start then (p, false)
    else if recs[p.cursor].action == SKIP && p.seeking then
      match seek
      case EndOfFile => (p, false)
      case NoSeeking => (p.(seeking := false), false)
      case Landed(lastPos, landed) =>
        if lastPos >= landed then (p.(cursor := p.cursor + 1, muted := false), true)
        else
          var k := Reach(recs, landed, 0);
          (p.(cursor := k, muted := OpenAt(recs, k)), true)
    else if recs[p.cursor].action == MUTE then (p.(cursor := p.cursor + 1, muted := !p.muted), false)
    else (p, false)
  }

  /** edl_muted is right: it says whether a mute has begun before the cursor and not ended. */
  predicate MutedOk(recs: seq<Rec>, p: Place) {
    p.cursor <= |recs| && (p.muted <==> OpenAt(recs, p.cursor))
  }

  lemma OpenNext(recs: seq<Rec>, k: nat)
    requires k < |recs|
    ensures OpenAt(recs, k + 1) <==> OpenAt(recs, k) != (recs[k].action == MUTE)
  {
  }

  /** A skip that lies inside a mute. */
  predicate OpenSkip(recs: seq<Rec>, k: nat)
    requires k < |recs|
  {
    recs[k].action == SKIP && OpenAt(recs, k)
  }

  /** A skip inside a mute is reached and, because its seek goes backward, given up. */
  predicate GivesUp(recs: seq<Rec>, p: Place, pts: real, seek: Seek) {
    && p.cursor < |recs| && recs[p.cursor].start <= pts && OpenSkip(recs, p.cursor)
    && p.seeking && seek.Landed? && seek.lastPos >= seek.pts
  }

  /** A pass keeps it so, seeks forward and backward included, exactly unless it gives up a skip inside a mute. */
  lemma PassKeeps(recs: seq<Rec>, p: Place, pts: real, seek: Seek)
    requires MutedOk(recs, p)
    ensures MutedOk(recs, Pass(recs, p, pts, seek).0) <==> !GivesUp(recs, p, pts, seek)
  {
    if p.cursor < |recs| { OpenNext(recs, p.cursor); }
  }

  datatype Event = Event(pts: real, seek: Seek)

  function Follow(recs: seq<Rec>, p: Place, events: seq<Event>): (r: Place)
    requires p.cursor <= |recs|
    ensures r.cursor <= |recs|
    decreases events
  {
    if events == [] then p else Follow(recs, Pass(recs, p, events[0].pts, events[0].seek).0, events[1..])
  }

  const START := Place(0, false, true)

  /** Record i is the first that is not a mute, and it is a skip: from there a seek can lead anywhere. */
  predicate FirstSkip(recs: seq<Rec>, i: nat)
    requires i < |recs|
  {
    recs[i].action == SKIP && forall j | 0 <= j < i :: recs[j].action == MUTE
  }

  /** Some skip inside a mute can be come to. */
  ghost predicate Exposed(recs: seq<Rec>) {
    exists i, k {:trigger FirstSkip(recs, i), OpenSkip(recs, k)} | 0 <= i <= k < |recs| ::
        FirstSkip(recs, i) && OpenSkip(recs, k)
  }

  /** The cursor has passed nothing but mutes. */
  predicate OnlyMutes(recs: seq<Rec>, k: nat)
    requires k <= |recs|
  {
    forall j | 0 <= j < k :: recs[j].action == MUTE
  }

  /** Where no skip inside a mute can be come to, edl_muted stays right, or the cursor never gets past the
      first mutes. */
  lemma {:induction false} NotExposedKeeps(recs: seq<Rec>, p: Place, events: seq<Event>)
    requires !Exposed(recs) && MutedOk(recs, p)
    requires OnlyMutes(recs, p.cursor) || exists i | 0 <= i < |recs| :: FirstSkip(recs, i)
    ensures MutedOk(recs, Follow(recs, p, events))
    decreases events
  {
    if events != [] {
      var q := Pass(recs, p, events[0].pts, events[0].seek).0;
      if p.cursor < |recs| { NoOpenSkip(recs, p.cursor); }
      PassKeeps(recs, p, events[0].pts, events[0].seek);
      NotExposedKeeps(recs, q, events[1..]);
    }
  }

  lemma NoOpenSkip(recs: seq<Rec>, k: nat)
    requires !Exposed(recs) && k < |recs|
    requires OnlyMutes(recs, k) || exists i | 0 <= i < |recs| :: FirstSkip(recs, i)
    ensures !OpenSkip(recs, k)
    ensures recs[k].action == SKIP ==> exists i | 0 <= i < |recs| :: FirstSkip(recs, i)
  {
    if OnlyMutes(recs, k) && recs[k].action == SKIP {
      assert FirstSkip(recs, k);
    } else if recs[k].action == SKIP {
      var i :| 0 <= i < |recs| && FirstSkip(recs, i);
      assert i <= k;
    }
  }

  // ---------------------------------------------------------------- and a run that goes wrong where one can

  lemma {:induction false} FollowConcat(recs: seq<Rec>, p: Place, a: seq<Event>, b: seq<Event>)
    requires p.cursor <= |recs|
    ensures Follow(recs, p, a + b) == Follow(recs, Follow(recs, p, a), b)
    decreases a
  {
    if a == [] {
      assert a + b == b;
    } else {
      assert (a + b)[1..] == a[1..] + b;
      FollowConcat(recs, Pass(recs, p, a[0].pts, a[0].seek).0, a[1..], b);
    }
  }

  lemma FollowOne(recs: seq<Rec>, p: Place, e: Event)
    requires p.cursor <= |recs|
    ensures Follow(recs, p, [e]) == Pass(recs, p, e.pts, e.seek).0
  {
    assert [e][1..] == [];
  }

  /** Walks over the first mutes. */
  lemma {:induction false} WalkTo(recs: seq<Rec>, i: nat) returns (events: seq<Event>)
    requires i <= |recs| && OnlyMutes(recs, i)
    ensures Follow(recs, START, events) == Place(i, OpenAt(recs, i), true)
  {
    events := [];
    if i > 0 {
      var before := WalkTo(recs, i - 1);
      var e := Event(recs[i - 1].start, NoSeeking);
      events := before + [e];
      FollowConcat(recs, START, before, [e]);
      FollowOne(recs, Place(i - 1, OpenAt(recs, i - 1), true), e);
      OpenNext(recs, i - 1);
    }
  }

  lemma {:induction false} ReachIs(recs: seq<Rec>, k: nat, from: nat)
    requires Chronological(recs) && 0 < k < |recs| && from <= k
    ensures Reach(recs, recs[k - 1].stop, from) == k
    decreases k - from
  {
    if from < k {
      assert recs[from].stop <= recs[k - 1].stop by { if from < k - 1 { assert recs[from].stop < recs[k - 1].start; } }
      ReachIs(recs, k, from + 1);
    } else {
      assert recs[k - 1].stop < recs[k].start;
    }
  }

  /** Comes to any record from the first skip on, with edl_muted still right. */
  lemma GoTo(recs: seq<Rec>, i: nat, k: nat) returns (events: seq<Event>)
    requires Chronological(recs) && i <= k < |recs| && FirstSkip(recs, i)
    ensures Follow(recs, START, events) == Place(k, OpenAt(recs, k), true)
  {
    events := WalkTo(recs, i);
    if i < k {
      var to := recs[k - 1].stop;
      var e := Event(recs[i].start, Landed(to - 1.0, to));
      FollowConcat(recs, START, events, [e]);
      FollowOne(recs, Place(i, OpenAt(recs, i), true), e);
      ReachIs(recs, k, 0);
      events := events + [e];
    }
  }

  /** A skip inside a mute that is given up ends the mute too soon. */
  lemma ExposedBreaks(recs: seq<Rec>) returns (events: seq<Event>)
    requires Chronological(recs) && Exposed(recs)
    ensures !MutedOk(recs, Follow(recs, START, events))
  {
    var i, k :| 0 <= i <= k < |recs| && FirstSkip(recs, i) && OpenSkip(recs, k);
    events := GoTo(recs, i, k);
    var e := Event(recs[k].start, Landed(0.0, 0.0));
    FollowConcat(recs, START, events, [e]);
    FollowOne(recs, Place(k, OpenAt(recs, k), true), e);
    OpenNext(recs, k);
    events := events + [e];
  }

  /** For every list in order of time, edl_muted is right in all runs if and only if no skip inside a mute can be come
      to. */
  lemma MutedIff(recs: seq<Rec>)
    requires Chronological(recs)
    ensures (forall events :: MutedOk(recs, Follow(recs, START, events))) <==> !Exposed(recs)
  {
    if Exposed(recs) {
      var events := ExposedBreaks(recs);
    } else {
      forall events ensures MutedOk(recs, Follow(recs, START, events)) { NotExposedKeeps(recs, START, events); }
    }
  }

  /** For every file, on the list that is read from it. */
  lemma FileMutedIff(lines: seq<Option<Line>>)
    ensures var recs := ReadAll([], lines);
      (forall events :: MutedOk(recs, Follow(recs, START, events))) <==> !Exposed(recs)
  {
    StillChronological([], lines);
    MutedIff(ReadAll([], lines));
  }

  /** A file without a deceptive line has no skip inside a mute at all. */
  lemma MutedAlways(lines: seq<Option<Line>>, events: seq<Event>)
    requires !AnyDeceptive([], lines)
    ensures var recs := ReadAll([], lines); MutedOk(recs, Follow(recs, START, events))
  {
    var recs := ReadAll([], lines);
    ReadGuarantees([], lines);
    assert !Exposed(recs);
    FileMutedIff(lines);
  }

  // ---------------------------------------------------------------- what that means for the sound

  /** Time t lies in a mute: between the two records of one. */
  ghost predicate InMute(recs: seq<Rec>, t: real) {
    exists i | 0 <= i < |recs| - 1 :: OpenAt(recs, i + 1) && recs[i].start <= t < recs[i + 1].start
  }

  /** The cursor has caught up with time t: it stands on the first record that begins after t. */
  predicate CaughtUp(recs: seq<Rec>, k: nat, t: real) {
    k <= |recs| && (k < |recs| ==> t < recs[k].start) && (k > 0 ==> recs[k - 1].start <= t)
  }

  /** Once the cursor has caught up, edl_muted says exactly whether the picture lies in a mute. */
  lemma MutedMeans(recs: seq<Rec>, k: nat, t: real)
    requires Chronological(recs) && Paired(recs) && CaughtUp(recs, k, t)
    ensures OpenAt(recs, k) <==> InMute(recs, t)
  {
    if OpenAt(recs, k) {
      assert k > 0 && k < |recs|;
      assert OpenAt(recs, (k - 1) + 1);
    }
    if InMute(recs, t) {
      var i :| 0 <= i < |recs| - 1 && OpenAt(recs, i + 1) && recs[i].start <= t < recs[i + 1].start;
      NotBefore(recs, i, k, t);
    }
  }

  /** The cursor stands right behind the last record that has begun. */
  lemma NotBefore(recs: seq<Rec>, i: nat, k: nat, t: real)
    requires Chronological(recs) && CaughtUp(recs, k, t) && i + 1 < |recs| && recs[i].start <= t < recs[i + 1].start
    ensures k == i + 1
  {
    var last, next := if k > 0 then k - 1 else 0, if k < |recs| then k else 0;
    Ordered(recs, if i + 1 <= last then i + 1 else last, last);
    Ordered(recs, if next <= i then next else i, i);
  }

  lemma Ordered(recs: seq<Rec>, i: nat, j: nat)
    requires Chronological(recs) && i <= j < |recs|
    ensures recs[i].start <= recs[j].start
  {
    if i < j { assert recs[i].stop < recs[j].start; }
  }

  /** No record begins before t, from the k-th on, but mutes. */
  predicate OnlyMutesAhead(recs: seq<Rec>, k: nat, t: real) {
    forall i | k <= i < |recs| && recs[i].start <= t :: recs[i].action == MUTE
  }

  /** Passes that find nothing to do change nothing, however many there are. */
  lemma {:induction false} StaysPut(recs: seq<Rec>, p: Place, t: real, events: seq<Event>)
    requires p.cursor <= |recs| && forall e <- events :: e.pts == t
    requires p.cursor == |recs| || t < recs[p.cursor].start || (recs[p.cursor].action != MUTE && !p.seeking)
    ensures Follow(recs, p, events) == p
    decreases events
  {
    if events != [] {
      assert events[0] in events;
      StaysPut(recs, p, t, events[1..]);
    }
  }

  /** After enough passes at time t the cursor has caught up with it, if only mutes are in between; and once seeking has
      been given up, only then. */
  lemma {:induction false} CatchesUp(recs: seq<Rec>, p: Place, t: real, events: seq<Event>)
    requires Chronological(recs) && p.cursor <= |recs| && (p.cursor > 0 ==> recs[p.cursor - 1].start <= t)
    requires |recs| - p.cursor <= |events| && forall e <- events :: e.pts == t
    requires p.seeking ==> OnlyMutesAhead(recs, p.cursor, t)
    ensures CaughtUp(recs, Follow(recs, p, events).cursor, t) <==> OnlyMutesAhead(recs, p.cursor, t)
    decreases events
  {
    if p.cursor == |recs| || t < recs[p.cursor].start {
      StaysPut(recs, p, t, events);
      forall i | p.cursor <= i < |recs| ensures t < recs[i].start { Ordered(recs, p.cursor, i); }
    } else if recs[p.cursor].action == MUTE {
      assert events[0] in events;
      var q := Pass(recs, p, t, events[0].seek).0;
      assert OnlyMutesAhead(recs, q.cursor, t) <==> OnlyMutesAhead(recs, p.cursor, t);
      CatchesUp(recs, q, t, events[1..]);
    } else {
      StaysPut(recs, p, t, events);
    }
  }

  /** So, while only mutes are in between, edl_muted says after enough passes whether the picture lies in a mute. */
  lemma MutedAfterPasses(recs: seq<Rec>, p: Place, t: real, events: seq<Event>)
    requires Chronological(recs) && Paired(recs) && MutedOk(recs, p) && (p.cursor > 0 ==> recs[p.cursor - 1].start <= t)
    requires |recs| - p.cursor <= |events| && (forall e <- events :: e.pts == t) && OnlyMutesAhead(recs, p.cursor, t)
    ensures Follow(recs, p, events).muted <==> InMute(recs, t)
  {
    CatchesUp(recs, p, t, events);
    MutesKeep(recs, p, t, events);
    MutedMeans(recs, Follow(recs, p, events).cursor, t);
  }

  lemma {:induction false} MutesKeep(recs: seq<Rec>, p: Place, t: real, events: seq<Event>)
    requires MutedOk(recs, p) && OnlyMutesAhead(recs, p.cursor, t) && forall e <- events :: e.pts == t
    ensures MutedOk(recs, Follow(recs, p, events))
    decreases events
  {
    if events != [] {
      assert events[0] in events;
      PassKeeps(recs, p, t, events[0].seek);
      MutesKeep(recs, Pass(recs, p, t, events[0].seek).0, t, events[1..]);
    }
  }

  // ---------------------------------------------------------------- the program's own variables

  class Traversal {
    ghost const nodes: seq<EdlRecord>
    ghost const recs: seq<Rec>
    const head: EdlRecord?
    var cursor: EdlRecord?      // next_edl_record
    var edlMuted: bool
    var edlSeeking: bool
    ghost var k: nat

    constructor (head: EdlRecord?, ghost nodes: seq<EdlRecord>, ghost recs: seq<Rec>)
      requires Listed(nodes, recs) && head == At(nodes, 0)
      ensures Valid() && View() == START && this.nodes == nodes && this.recs == recs
    {
      this.nodes, this.recs, this.head := nodes, recs, head;
      cursor, edlMuted, edlSeeking, k := head, false, true, 0;
    }

    ghost predicate Valid()
      reads this, nodes
    {
      Listed(nodes, recs) && head == At(nodes, 0) && k <= |nodes| && cursor == At(nodes, k)
    }

    ghost function View(): Place
      reads this
    {
      Place(k, edlMuted, edlSeeking)
    }

    /** The loop after a forward seek: from the first record to the one that does not end before pts. */
    method Relocate(pts: real)
      requires Valid() && !edlMuted
      modifies `cursor, `edlMuted, `k
      ensures Valid() && k == Reach(recs, pts, 0) && edlMuted == OpenAt(recs, k)
    {
      cursor, k := head, 0;
      while cursor != null
        invariant Valid() && edlMuted == OpenAt(recs, k) && Reach(recs, pts, k) == Reach(recs, pts, 0)
        decreases |nodes| - k
      {
        assert Node(nodes, k, recs[k]);
        if cursor.rec.stop > pts { break; }
        OpenNext(recs, k);
        if cursor.rec.action == MUTE { edlMuted := !edlMuted; }
        cursor, k := cursor.next, k + 1;
      }
    }

    /** From goto_redo_edl to the end of the block. */
    method DoPass(pts: real, seek: Seek) returns (again: bool)
      requires Valid()
      modifies `cursor, `edlMuted, `edlSeeking, `k
      ensures Valid() && (View(), again) == Pass(recs, old(View()), pts, seek)
    {
      again := false;
      if cursor != null { assert Node(nodes, k, recs[k]); }
      if cursor != null && pts >= cursor.rec.start {
        if cursor.rec.action == SKIP && edlSeeking {
          match seek {
            case EndOfFile =>
            case NoSeeking => edlSeeking := false;
            case Landed(lastPos, landed) =>
              edlMuted := false;
              if lastPos >= landed {
                // the seek did not get past the skip: it is given up
                cursor, k := cursor.next, k + 1;
              } else {
                Relocate(landed);
              }
              again := true;
          }
        } else if cursor.rec.action == MUTE {
          edlMuted := !edlMuted;
          cursor, k := cursor.next, k + 1;
        }
      }
    }
  }
}

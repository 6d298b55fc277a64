/** Edit decision lists: how edl.c reads them and how mencoder.c follows them. */
module EditLists {
  import opened Util

  const SKIP := 0
  const MUTE := 1

  /** One record: for a mute there are two, each of length 0, where it begins and where it ends. */
  datatype Rec = Rec(start: real, stop: real, length: real, action: int)

  /** A line with three numbers. */
  datatype Line = Line(start: real, stop: real, action: int)

  // ---------------------------------------------------------------- reading

  /** The action is an int when compared and a short once stored. */
  function ToShort(n: int): int {
    var m := n % 0x1_0000;
    if m < 0x8000 then m else m - 0x1_0000
  }

  predicate Accepted(recs: seq<Rec>, l: Line) {
    (recs != [] ==> recs[|recs| - 1].stop < l.start) && l.start < l.stop
  }

  function RecordsOf(l: Line): seq<Rec> {
    if l.action == MUTE then [Rec(l.start, l.start, 0.0, MUTE), Rec(l.stop, l.stop, 0.0, MUTE)]
    else [Rec(l.start, l.stop, l.stop - l.start, ToShort(l.action))]
  }

  /** The records after one more line; a badly formatted line is None. */
  function Add(recs: seq<Rec>, l: Option<Line>): seq<Rec> {
    if l.Some? && Accepted(recs, l.value) then recs + RecordsOf(l.value) else recs
  }

  function ReadAll(recs: seq<Rec>, lines: seq<Option<Line>>): seq<Rec>
    decreases lines
  {
    if lines == [] then recs else ReadAll(Add(recs, lines[0]), lines[1..])
  }

  // ---------------------------------------------------------------- what the reader guarantees

  predicate Chronological(recs: seq<Rec>) {
    && (forall i | 0 <= i < |recs| :: recs[i].start <= recs[i].stop)
    && forall i, j | 0 <= i < j < |recs| :: recs[i].stop < recs[j].start
  }

  /** How many of the first k records are mutes. */
  function Mutes(recs: seq<Rec>, k: nat): nat
    requires k <= |recs|
  {
    if k == 0 then 0 else Mutes(recs, k - 1) + if recs[k - 1].action == MUTE then 1 else 0
  }

  predicate Odd(n: nat) {
    n % 2 == 1
  }

  /** A mute has begun before record k and not ended. */
  predicate OpenAt(recs: seq<Rec>, k: nat)
    requires k <= |recs|
  {
    Odd(Mutes(recs, k))
  }

  ghost predicate InPairs(recs: seq<Rec>) {
    forall k {:trigger OpenAt(recs, k)} | 0 <= k < |recs| :: OpenAt(recs, k) ==> recs[k].action == MUTE
  }

  ghost predicate Points(recs: seq<Rec>) {
    forall i | 0 <= i < |recs| :: recs[i].action == MUTE ==> recs[i].start == recs[i].stop
  }

  /** Mutes are points in time, and the two records of each are neighbours: none that is not a mute lies
      between them, and none is left alone. */
  ghost predicate Paired(recs: seq<Rec>) {
    InPairs(recs) && !OpenAt(recs, |recs|) && Points(recs)
  }

  /** A line whose action becomes that of a mute only when it is cut down to a short. */
  predicate Deceptive(l: Option<Line>) {
    l.Some? && l.value.action != MUTE && ToShort(l.value.action) == MUTE
  }

  lemma {:induction false} MutesPrefix(a: seq<Rec>, all: seq<Rec>, k: nat)
    requires k <= |a| <= |all| && forall i | 0 <= i < k :: all[i] == a[i]
    ensures Mutes(all, k) == Mutes(a, k)
  {
    if k > 0 { MutesPrefix(a, all, k - 1); }
  }

  lemma AddChronological(recs: seq<Rec>, l: Option<Line>)
    requires Chronological(recs)
    ensures Chronological(Add(recs, l))
  {
    if l.Some? && Accepted(recs, l.value) && recs != [] {
      var n := |recs| - 1;
      forall i | 0 <= i < |recs| ensures recs[i].stop < l.value.start {
        assert recs[i].stop <= recs[n].stop by { if i < n { assert recs[i].stop < recs[n].start; } }
      }
    }
  }

  lemma OpenSnoc(recs: seq<Rec>, all: seq<Rec>, k: nat)
    requires k <= |recs| <= |all| && forall i | 0 <= i < k :: all[i] == recs[i]
    ensures OpenAt(all, k) == OpenAt(recs, k)
  {
    MutesPrefix(recs, all, k);
  }

  lemma InPairsSnoc(recs: seq<Rec>, r: Rec, all: seq<Rec>, n: nat)
    requires InPairs(recs) && n == |recs| && all == recs + [r] && (OpenAt(recs, n) ==> r.action == MUTE)
    ensures InPairs(all)
    ensures OpenAt(all, n + 1) <==> OpenAt(recs, n) != (r.action == MUTE)
  {
    OpenSnoc(recs, all, n);
    forall k | 0 <= k < |all| && OpenAt(all, k) ensures all[k].action == MUTE { OpenSnoc(recs, all, k); }
  }

  lemma PointsSnoc(recs: seq<Rec>, r: Rec, all: seq<Rec>)
    requires Points(recs) && all == recs + [r] && (r.action == MUTE ==> r.start == r.stop)
    ensures Points(all)
  {
  }

  lemma AddMute(recs: seq<Rec>, a: Rec, b: Rec, one: seq<Rec>, all: seq<Rec>)
    requires Paired(recs) && a.action == b.action == MUTE && a.start == a.stop && b.start == b.stop
    requires one == recs + [a] && all == one + [b]
    ensures Paired(all)
  {
    var n := |recs|;
    InPairsSnoc(recs, a, one, n);
    InPairsSnoc(one, b, all, n + 1);
    PointsSnoc(recs, a, one);
    PointsSnoc(one, b, all);
  }

  lemma AddOther(recs: seq<Rec>, r: Rec, all: seq<Rec>)
    requires Paired(recs) && r.action != MUTE && all == recs + [r]
    ensures Paired(all)
  {
    InPairsSnoc(recs, r, all, |recs|);
    PointsSnoc(recs, r, all);
  }

  lemma AddPaired(recs: seq<Rec>, l: Option<Line>)
    requires Paired(recs)
    ensures Paired(Add(recs, l)) <==> !(Deceptive(l) && Accepted(recs, l.value))
  {
    if l.Some? && Accepted(recs, l.value) {
      var more, all := RecordsOf(l.value), Add(recs, l);
      if l.value.action == MUTE {
        assert recs + [more[0]] + [more[1]] == all;
        AddMute(recs, more[0], more[1], recs + [more[0]], all);
      } else if Deceptive(l) {
        assert all[|recs|] == more[0];
      } else {
        AddOther(recs, more[0], all);
      }
    }
  }

  /** Some accepted line is deceptive. */
  predicate AnyDeceptive(recs: seq<Rec>, lines: seq<Option<Line>>)
    decreases lines
  {
    lines != []
        && ((Deceptive(lines[0]) && Accepted(recs, lines[0].value)) || AnyDeceptive(Add(recs, lines[0]), lines[1..]))
  }

  /** A mute that lasts stays in the list. */
  lemma {:induction false} LastingMuteStays(recs: seq<Rec>, lines: seq<Option<Line>>, i: nat)
    requires i < |recs| && recs[i].action == MUTE && recs[i].start != recs[i].stop
    ensures !Paired(ReadAll(recs, lines))
    decreases lines
  {
    if lines != [] { LastingMuteStays(Add(recs, lines[0]), lines[1..], i); }
  }

  /** Whatever the file, the list is strictly chronological; and its mutes are paired exactly when no line
      that is taken has an action that only a short would take for a mute. */
  lemma {:induction false} ReadGuarantees(recs: seq<Rec>, lines: seq<Option<Line>>)
    requires Chronological(recs) && Paired(recs)
    ensures Chronological(ReadAll(recs, lines))
    ensures Paired(ReadAll(recs, lines)) <==> !AnyDeceptive(recs, lines)
    decreases lines
  {
    if lines != [] {
      var next := Add(recs, lines[0]);
      AddChronological(recs, lines[0]);
      AddPaired(recs, lines[0]);
      if Paired(next) {
        ReadGuarantees(next, lines[1..]);
      } else {
        assert next[|recs|].action == MUTE;
        LastingMuteStays(next, lines[1..], |recs|);
        StillChronological(next, lines[1..]);
      }
    }
  }

  lemma {:induction false} StillChronological(recs: seq<Rec>, lines: seq<Option<Line>>)
    requires Chronological(recs)
    ensures Chronological(ReadAll(recs, lines))
    decreases lines
  {
    if lines != [] {
      AddChronological(recs, lines[0]);
      StillChronological(Add(recs, lines[0]), lines[1..]);
    }
  }

  // ---------------------------------------------------------------- the list in memory

  class EdlRecord {
    var rec: Rec
    var next: EdlRecord?
    var prev: EdlRecord?

    /** edl_alloc_new: the record follows the last one, if there is one. */
    constructor (last: EdlRecord?)
      modifies if last == null then {} else {last}
      ensures next == null && prev == last
      ensures last != null ==> last.next == this && last.rec == old(last.rec) && last.prev == old(last.prev)
    {
      rec, next, prev := Rec(0.0, 0.0, 0.0, 0), null, last;
      new;
      if last != null { last.next := this; }
    }
  }

  ghost function At(nodes: seq<EdlRecord>, i: int): EdlRecord? {
    if 0 <= i < |nodes| then nodes[i] else null
  }

  ghost predicate Node(nodes: seq<EdlRecord>, i: int, r: Rec)
    requires 0 <= i < |nodes|
    reads nodes
  {
    nodes[i].next == At(nodes, i + 1) && nodes[i].prev == At(nodes, i - 1) && nodes[i].rec == r
  }

  /** The nodes are linked both ways and hold the records. */
  ghost predicate Listed(nodes: seq<EdlRecord>, recs: seq<Rec>)
    reads nodes
  {
    && |nodes| == |recs|
    && (forall i, j | 0 <= i < j < |nodes| :: nodes[i] != nodes[j])
    && forall i {:trigger Node(nodes, i, recs[i])} | 0 <= i < |nodes| :: Node(nodes, i, recs[i])
  }

  /** Links a new record to the end of the list. */
  method Append(last: EdlRecord?, r: Rec, ghost nodes: seq<EdlRecord>, ghost recs: seq<Rec>) returns (n: EdlRecord)
    requires Listed(nodes, recs) && last == At(nodes, |nodes| - 1)
    modifies if last == null then {} else {last}
    ensures fresh(n) && Listed(nodes + [n], recs + [r])
  {
    assert last != null ==> Node(nodes, |nodes| - 1, recs[|nodes| - 1]);
    n := new EdlRecord(last);
    n.rec := r;
    forall i | 0 <= i < |nodes| ensures Node(nodes + [n], i, (recs + [r])[i]) { assert old(Node(nodes, i, recs[i])); }
  }

  /** The records of one accepted line. */
  method AppendLine(last: EdlRecord?, line: Line, ghost nodes: seq<EdlRecord>, ghost recs: seq<Rec>)
    returns (first: EdlRecord, n: EdlRecord, ghost now: seq<EdlRecord>)
    requires Listed(nodes, recs) && last == At(nodes, |nodes| - 1)
    modifies if last == null then {} else {last}
    ensures Listed(now, recs + RecordsOf(line)) && nodes < now && n == At(now, |now| - 1) && first == now[|nodes|]
    ensures forall i | |nodes| <= i < |now| :: fresh(now[i])
  {
    ghost var more := RecordsOf(line);
    var r := Rec(line.start, line.stop, line.stop - line.start, ToShort(line.action));
    if line.action == MUTE { r := Rec(line.start, line.start, 0.0, line.action); }
    n := Append(last, r, nodes, recs);
    first, now := n, nodes + [n];
    if line.action == MUTE {
      n := Append(n, Rec(line.stop, line.stop, 0.0, line.action), now, recs + [more[0]]);
      now := now + [n];
      assert recs + [more[0]] + [more[1]] == recs + more;
    }
  }

  /** Does the line begin after the last record, and end after it begins? */
  method IsValid(last: EdlRecord?, line: Line, ghost nodes: seq<EdlRecord>, ghost recs: seq<Rec>) returns (valid: bool)
    requires Listed(nodes, recs) && last == At(nodes, |nodes| - 1)
    ensures valid == Accepted(recs, line)
  {
    if last != null { assert Node(nodes, |nodes| - 1, recs[|nodes| - 1]); }
    if last != null && line.start <= last.rec.stop { return false; }
    if line.stop <= line.start { return false; }
    valid := true;
  }

  /** edl_parse_file, on the numbers of its lines */
  method ParseFile(lines: seq<Option<Line>>) returns (head: EdlRecord?, ghost nodes: seq<EdlRecord>)
    ensures Listed(nodes, ReadAll([], lines)) && head == At(nodes, 0) && fresh(nodes)
  {
    head, nodes := null, [];
    var last: EdlRecord? := null;
    var k := 0;
    ghost var recs: seq<Rec>, rest := [], lines;
    while k < |lines|
      invariant 0 <= k <= |lines| && fresh(nodes) && rest == lines[k..]
      invariant Listed(nodes, recs) && head == At(nodes, 0) && last == At(nodes, |nodes| - 1)
      invariant ReadAll(recs, rest) == ReadAll([], lines)
    {
      var line := lines[k];
      rest, k := rest[1..], k + 1;
      if line == None { continue; }
      var valid := IsValid(last, line.value, nodes, recs);
      if !valid { continue; }
      var first;
      first, last, nodes := AppendLine(last, line.value, nodes, recs);
      recs := Add(recs, line);
      if head == null { head := first; }
    }
  }
}

/** Why no key stays pressed: the key queue between the producer of key codes and input.c. */
module StuckKeys {
  import opened Util
  import opened KeyFifos

  const MAX_KEY_DOWN := 32

  // ---------------------------------------------------------------- the two ends

  /** The keys that the one who puts codes still holds. */
  function Hold(held: set<nat>, code: Code): set<nat> {
    var rest := if code.releaseAll then {} else held;
    if code.down then rest + {code.key} else rest - {code.key}
  }

  /** interpret_key: the keys that the input loop takes for pressed, after one more code.  A key released
      without having been pressed is added, looked up and removed again. */
  function Interpret(keys: seq<nat>, code: Code): seq<nat> {
    var now := if code.releaseAll then [] else keys;
    if code.down then
      if |now| > MAX_KEY_DOWN || code.key in now then now else now + [code.key]
    else if code.key in now then
      var j := IndexOf(now, code.key); now[..j] + now[j + 1..]
    else now
  }

  /** The keys pressed once the input loop has read all the codes. */
  function Drain(keys: seq<nat>, codes: seq<Code>): seq<nat>
    decreases codes
  {
    if codes == [] then keys else Drain(Interpret(keys, codes[0]), codes[1..])
  }

  lemma {:induction false} DrainOneMore(keys: seq<nat>, codes: seq<Code>, code: Code)
    ensures Drain(keys, codes + [code]) == Interpret(Drain(keys, codes), code)
    decreases codes
  {
    if codes == [] {
      assert (codes + [code])[1..] == [];
    } else {
      assert (codes + [code])[1..] == codes[1..] + [code];
      DrainOneMore(Interpret(keys, codes[0]), codes[1..], code);
    }
  }

  // ---------------------------------------------------------------- runs

  datatype Event = Key(code: Code) | Read

  datatype World = World(fifo: Fifo, keys: seq<nat>, held: set<nat>)

  function Next(size: nat, w: World, e: Event): (r: World)
    requires |w.fifo.codes| <= size
    ensures |r.fifo.codes| <= size
  {
    match e
    case Key(code) => w.(fifo := AfterPut(size, w.fifo, code), held := Hold(w.held, code))
    case Read =>
      if w.fifo.codes == [] then w
      else w.(fifo := w.fifo.(codes := w.fifo.codes[1..]), keys := Interpret(w.keys, w.fifo.codes[0]))
  }

  function Run(size: nat, w: World, events: seq<Event>): (r: World)
    requires |w.fifo.codes| <= size
    ensures |r.fifo.codes| <= size
    decreases events
  {
    if events == [] then w else Run(size, Next(size, w, events[0]), events[1..])
  }

  const START := World(Fifo([], NOTHING), [], {})

  /** Releasing all keys is not also a press. */
  predicate Sane(e: Event) {
    e.Key? ==> !(e.code.down && e.code.releaseAll)
  }

  // ---------------------------------------------------------------- what every run keeps

  predicate NoDuplicates(keys: seq<nat>) {
    forall i, j | 0 <= i < j < |keys| :: keys[i] != keys[j]
  }

  ghost predicate OnlyHeld(keys: seq<nat>, held: set<nat>) {
    NoDuplicates(keys) && forall k <- keys :: k in held
  }

  ghost predicate NoneStuck(size: nat, w: World) {
    && |w.fifo.codes| <= size
    && OnlyHeld(Drain(w.keys, w.fifo.codes), w.held)
    && (w.fifo.previous.releaseAll ==> Drain(w.keys, w.fifo.codes) == [])
    && (|w.fifo.codes| == size ==> w.fifo.previous.releaseAll)
    && !w.fifo.previous.down
  }

  lemma InterpretHolds(keys: seq<nat>, held: set<nat>, code: Code)
    requires OnlyHeld(keys, held)
    ensures OnlyHeld(Interpret(keys, code), Hold(held, code))
  {
    var now := if code.releaseAll then [] else keys;
    if !code.down && code.key in now {
      var j := IndexOf(now, code.key);
      assert forall k <- Interpret(keys, code) :: k in now && k != code.key;
    }
  }

  lemma PutKeeps(size: nat, w: World, code: Code)
    requires size >= 1 && NoneStuck(size, w) && Sane(Key(code))
    ensures NoneStuck(size, Next(size, w, Key(code)))
  {
    var codes := w.fifo.codes;
    match Stored(size, w.fifo, code)
    case None =>
      // a release is refused only behind a release of all keys
      assert code.down || w.fifo.previous.releaseAll;
    case Some(c) =>
      DrainOneMore(w.keys, codes, c);
      if c == code {
        InterpretHolds(Drain(w.keys, codes), w.held, code);
      }
  }

  lemma ReadKeeps(size: nat, w: World)
    requires NoneStuck(size, w)
    ensures NoneStuck(size, Next(size, w, Read))
  {
  }

  lemma {:induction false} RunKeeps(size: nat, w: World, events: seq<Event>)
    requires size >= 1 && NoneStuck(size, w) && forall e <- events :: Sane(e)
    ensures NoneStuck(size, Run(size, w, events))
    decreases events
  {
    if events != [] {
      if events[0].Key? { PutKeeps(size, w, events[0].code); } else { ReadKeeps(size, w); }
      RunKeeps(size, Next(size, w, events[0]), events[1..]);
    }
  }

  /** Once the queue is drained, the input loop takes no key for pressed that is not still held. */
  ghost predicate Clear(w: World) {
    forall k <- Drain(w.keys, w.fifo.codes) :: k in w.held
  }

  /** However presses, releases and reads follow each other, and whatever the queue has refused. */
  lemma NoStuckKeys(size: nat, events: seq<Event>)
    requires size >= 1 && forall e <- events :: Sane(e)
    ensures Clear(Run(size, START, events))
  {
    RunKeeps(size, START, events);
  }

  // ---------------------------------------------------------------- codes that release all keys and press one

  lemma {:induction false} RunConcat(size: nat, w: World, a: seq<Event>, b: seq<Event>)
    requires |w.fifo.codes| <= size
    ensures Run(size, w, a + b) == Run(size, Run(size, w, a), b)
    decreases a
  {
    if a == [] {
      assert a + b == b;
    } else {
      assert (a + b)[1..] == a[1..] + b;
      RunConcat(size, Next(size, w, a[0]), a[1..], b);
    }
  }

  /** A press of key k, and then releases of another key while the queue takes them as they are. */
  lemma {:induction false} Fill(size: nat, k: nat, r: nat, n: nat) returns (events: seq<Event>)
    requires size >= 2 && k != r && n + 1 <= size - size / 2
    ensures forall e <- events :: Sane(e)
    ensures var w := Run(size, START, events);
      w.keys == [] && w.held == {k} && |w.fifo.codes| == n + 1 && Drain([], w.fifo.codes) == [k]
  {
    if n == 0 {
      events := [Key(Code(k, true, false))];
      var w := Next(size, START, events[0]);
      assert events[1..] == [] && w.fifo.codes == [Code(k, true, false)] && w.fifo.codes[1..] == [];
    } else {
      var before := Fill(size, k, r, n - 1);
      var w, e := Run(size, START, before), Key(Code(r, false, false));
      events := before + [e];
      RunConcat(size, START, before, [e]);
      assert [e][1..] == [] && Stored(size, w.fifo, e.code) == Some(e.code);
      DrainOneMore([], w.fifo.codes, e.code);
    }
  }

  /** Such a code, refused by a queue half full, leaves a key pressed that it was to release; in every queue of two or
      more. */
  lemma BothMarksStick(size: nat, bad: Code) returns (events: seq<Event>)
    requires size >= 2 && bad.down && bad.releaseAll
    ensures forall e <- events :: Sane(e) || e == Key(bad)
    ensures !Clear(Run(size, START, events))
  {
    var k := bad.key + 1;
    var before := Fill(size, k, bad.key + 2, size - size / 2 - 1);
    var w, e := Run(size, START, before), Key(bad);
    events := before + [e];
    RunConcat(size, START, before, [e]);
    assert [e][1..] == [] && Stored(size, w.fifo, bad) == None;
    assert k in Drain([], w.fifo.codes);
  }

  /** A queue of one code turns everything into a release of all keys. */
  lemma {:induction false} OneSlotKeeps(w: World, events: seq<Event>)
    requires |w.fifo.codes| <= 1 && Drain(w.keys, w.fifo.codes) == [] && !w.fifo.previous.down
    ensures Drain(Run(1, w, events).keys, Run(1, w, events).fifo.codes) == []
    decreases events
  {
    if events != [] {
      if events[0].Key? {
        var c := Stored(1, w.fifo, events[0].code);
        if c.Some? { DrainOneMore(w.keys, w.fifo.codes, c.value); }
      }
      OneSlotKeeps(Next(1, w, events[0]), events[1..]);
    }
  }

  /** With codes that carry one mark at most, and some others: no key is ever stuck, in any run, if and only if none
      of the others carries both marks, or the queue holds just one code. */
  lemma NoStuckIff(size: nat, others: set<Code>)
    requires size >= 1
    ensures (forall events: seq<Event> | (forall e <- events :: Sane(e) || e.code in others) ::
               Clear(Run(size, START, events)))
       <==> (size == 1 || forall c <- others :: !(c.down && c.releaseAll))
  {
    if size == 1 {
      forall events: seq<Event> ensures Clear(Run(size, START, events)) { OneSlotKeeps(START, events); }
    } else if bad: Code :| bad in others && bad.down && bad.releaseAll {
      var events := BothMarksStick(size, bad);
    } else {
      forall events: seq<Event> | forall e <- events :: Sane(e) || e.code in others
        ensures Clear(Run(size, START, events)) {
        NoStuckKeys(size, events);
      }
    }
  }

  // ---------------------------------------------------------------- and nothing is forgotten without need

  ghost predicate Exact(w: World) {
    var keys := Drain(w.keys, w.fifo.codes);
    NoDuplicates(keys) && forall k :: k in keys <==> k in w.held
  }

  lemma RemovedIs(now: seq<nat>, j: nat, k: nat)
    requires NoDuplicates(now) && j < |now|
    ensures k in now[..j] + now[j + 1..] <==> k in now && k != now[j]
  {
    var rest := now[..j] + now[j + 1..];
    if k in now && k != now[j] {
      var i := IndexOf(now, k);
      assert rest[if i < j then i else i - 1] == k;
    }
  }

  /** A code that is queued as it is, with room for the key, leaves both ends in agreement. */
  lemma StoredIsSeen(size: nat, w: World, code: Code)
    requires |w.fifo.codes| <= size && Exact(w) && Stored(size, w.fifo, code) == Some(code)
    requires |Drain(w.keys, w.fifo.codes)| <= MAX_KEY_DOWN
    ensures Exact(Next(size, w, Key(code)))
  {
    DrainOneMore(w.keys, w.fifo.codes, code);
    var keys := Drain(w.keys, w.fifo.codes);
    assert OnlyHeld(keys, w.held);
    InterpretHolds(keys, w.held, code);
    var now := if code.releaseAll then [] else keys;
    if !code.down && code.key in now {
      forall k ensures k in Interpret(keys, code) <==> k in Hold(w.held, code) {
        RemovedIs(now, IndexOf(now, code.key), k);
      }
    }
  }

  /** While the queue is less than half full every code is queued as it is. */
  lemma HalfEmptyStoresAll(size: nat, f: Fifo, code: Code)
    requires size >= 2 && 2 * |f.codes| < size
    ensures Stored(size, f, code) == Some(code)
  {
  }

  /** Codes come only to a queue less than half full, and with room for one more key. */
  predicate Calm(size: nat, w: World, events: seq<Event>)
    requires |w.fifo.codes| <= size
    decreases events
  {
    events == [] ||
    ((events[0].Key? ==> 2 * |w.fifo.codes| < size && |Drain(w.keys, w.fifo.codes)| <= MAX_KEY_DOWN)
     && Calm(size, Next(size, w, events[0]), events[1..]))
  }

  /** Then nothing is lost: once the queue is drained the input loop holds exactly the keys that are held. */
  lemma {:induction false} CalmRunIsSeen(size: nat, w: World, events: seq<Event>)
    requires size >= 2 && |w.fifo.codes| <= size && Exact(w) && Calm(size, w, events)
    ensures Exact(Run(size, w, events))
    decreases events
  {
    if events != [] {
      if events[0].Key? {
        HalfEmptyStoresAll(size, w.fifo, events[0].code);
        StoredIsSeen(size, w, events[0].code);
      }
      CalmRunIsSeen(size, Next(size, w, events[0]), events[1..]);
    }
  }

  // ---------------------------------------------------------------- the last place

  /** What takes the last place lets go of all keys; it names the key only if it is the release of the one that was
      pressed last, and none is taken behind another such code. */
  lemma LastPlace(size: nat, f: Fifo, code: Code)
    requires |f.codes| == size - 1 && (size == 1 || !code.down)
    ensures f.previous.releaseAll || (size == 1 && code.down && 1 <= size / 2) ==> AfterPut(size, f, code) == f
    ensures !f.previous.releaseAll ==> var c := AfterPut(size, f, code).codes[size - 1];
      && AfterPut(size, f, code).codes == f.codes + [c] && c.releaseAll
      && (if code == f.previous then c.key == code.key && c.down == code.down else c.key == 0 && !c.down)
  {
  }

  /** So even a queue of two lets the wheel of a mouse through: its press and its release. */
  lemma WheelGoesThrough(key: nat)
    ensures var pressed := Next(2, START, Key(Code(key, true, false)));
      var released := Next(2, pressed, Key(Code(key, false, false)));
      && released.fifo.codes == [Code(key, true, false), Code(key, false, true)]
      && Next(2, released, Read).keys == [key]
      && Next(2, Next(2, released, Read), Read).keys == []
  {
    var pressed := Next(2, START, Key(Code(key, true, false)));
    assert pressed.fifo.codes == [Code(key, true, false)];
    var released := Next(2, pressed, Key(Code(key, false, false)));
    assert released.fifo.codes == [Code(key, true, false), Code(key, false, true)];
    var once := Next(2, released, Read);
    assert once.keys == [] + [key] && once.fifo.codes == [Code(key, false, true)];
  }

  /** A press is queued exactly while more than half of the room is free, a half rounded down; a release while there is
      any, but into the last place only behind anything but a release of all keys. */
  lemma QueuedIff(size: nat, f: Fifo, code: Code)
    requires size >= 2 && |f.codes| <= size
    ensures code.down ==> (Stored(size, f, code).Some? <==> |f.codes| < size - size / 2)
    ensures !code.down ==> (Stored(size, f, code).Some? <==>
      |f.codes| + 1 < size || (|f.codes| + 1 == size && !f.previous.releaseAll))
  {
  }
}

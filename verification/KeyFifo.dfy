/**
 The queue of mp_fifo.c between the window system and the input loop: a ring buffer that
 holds back room so that a key release is never lost to a queue that ran full.
 */
module KeyFifos {
  import opened Util

  /** A key code with its two marks, MP_KEY_DOWN and MP_KEY_RELEASE_ALL. */
  datatype Code = Code(key: nat, down: bool, releaseAll: bool)

  const NOTHING := Code(0, false, false)

  // ---------------------------------------------------------------- what is put, as a bounded queue

  /** The queue as a list, and the last key that was queued as pressed or, if the last code
      queued was a release, whether that released all keys. */
  datatype Fifo = Fifo(codes: seq<Code>, previous: Code)

  /** What mplayer_put_key_internal stores for a code: nothing, the code, or a release of all keys. */
  function Stored(size: nat, f: Fifo, code: Code): Option<Code>
    requires |f.codes| <= size
  {
    var free := size - |f.codes|;
    if free == 0 || (code.down && free <= size / 2) then None
    else if free > 1 then Some(code)
    else if f.previous.releaseAll then None
    else Some((if code != f.previous then NOTHING else code).(releaseAll := true))
  }

  function AfterPut(size: nat, f: Fifo, code: Code): (r: Fifo)
    requires |f.codes| <= size
    ensures |r.codes| <= size
  {
    match Stored(size, f, code)
    case None => f
    case Some(c) => Fifo(f.codes + [c], if c.down then c.(down := false) else Code(0, false, c.releaseAll))
  }

  // ---------------------------------------------------------------- the ring

  const WRAP: nat := 0x1_0000_0000

  /** An unsigned counter after n steps. */
  function Counter(n: nat): (c: nat)
    ensures c < WRAP
  {
    n % WRAP
  }

  /** read + size - write, in unsigned arithmetic */
  function Free(size: nat, read: nat, write: nat): nat
    requires write < WRAP
  {
    (read + size + WRAP - write) % WRAP
  }

  /** Where in the ring the n-th code ever queued lies; the counters are unsigned ints. */
  function Slot(size: nat, n: nat): (i: nat)
    requires size > 0
    ensures i < size
  {
    Counter(n) % size
  }

  /** The first n codes can be queued without the counters' wrap-around disturbing the order. */
  predicate Orderly(size: nat, n: nat)
    requires size > 0
  {
    n <= WRAP || WRAP % size == 0
  }

  lemma DivMod(a: nat, b: nat, size: nat)
    requires size > 0 && WRAP % size == 0 && a == b % WRAP
    ensures a % size == b % size
  {
    var k, m := b / WRAP, WRAP / size;
    assert b == a + (k * m) * size by { assert WRAP == m * size; assert k * WRAP == (k * m) * size; }
    AddMultiple(a, k * m, size);
  }

  lemma MulSign(d: int, size: nat)
    ensures d >= 1 ==> d * size >= size
    ensures d == 0 ==> d * size == 0
    ensures d <= -1 ==> d * size + size <= 0
  {
    if d >= 1 { assert (d - 1) * size >= 0; }
    if d <= -1 { assert (-d - 1) * size >= 0; }
  }

  lemma ModUnique(x: nat, q: nat, r: nat, size: nat)
    requires r < size && x == q * size + r
    ensures x % size == r && x / size == q
  {
    var d := x / size - q;
    assert d * size == r - x % size;
    MulSign(d, size);
  }

  lemma AddMultiple(a: nat, k: nat, size: nat)
    requires size > 0
    ensures (a + k * size) % size == a % size
  {
    assert a + k * size == (a / size + k) * size + a % size;
    ModUnique(a + k * size, a / size + k, a % size, size);
  }

  lemma SlotIs(size: nat, n: nat)
    requires size > 0 && (n < WRAP || WRAP % size == 0)
    ensures Slot(size, n) == n % size
  {
    if n < WRAP {
      assert n % WRAP == n;
    } else {
      DivMod(n % WRAP, n, size);
    }
  }

  /** Codes that are in the queue together lie apart. */
  lemma SlotsApart(size: nat, n: nat, i: nat, j: nat)
    requires size > 0 && i < j < n && j - i < size && Orderly(size, n)
    ensures Slot(size, i) != Slot(size, j)
  {
    SlotIs(size, i);
    SlotIs(size, j);
    if i % size == j % size { MultipleBetween(i, j, size); }
  }

  lemma MultipleBetween(i: nat, j: nat, size: nat)
    requires size > 0 && i < j && i % size == j % size
    ensures j - i >= size
  {
    var k := j / size - i / size;
    assert j - i == k * size;
    MulSign(k, size);
  }

  /** The order survives any number of keys exactly when the size divides the counters' range. */
  lemma OrderlyForever(size: nat)
    requires 0 < size < WRAP
    ensures (forall i: nat, j: nat | i < j < i + size :: Slot(size, i) != Slot(size, j)) <==> WRAP % size == 0
  {
    if WRAP % size == 0 {
      forall i: nat, j: nat | i < j < i + size ensures Slot(size, i) != Slot(size, j) { SlotsApart(size, j + 1, i, j); }
    } else {
      var i, j := Collision(size);
    }
  }

  lemma Collision(size: nat) returns (i: nat, j: nat)
    requires 0 < size < WRAP && WRAP % size != 0
    ensures i < j < i + size && Slot(size, i) == Slot(size, j)
  {
    var q, r := WRAP / size, WRAP % size;
    i, j := q * size, WRAP;
    assert i + r == j;
    ModUnique(i, q, 0, size);
    assert Counter(i) == i && Counter(j) == 0;
  }

  class KeyFifo {
    const size: nat
    var data: array?<Code>
    var read: nat                 // unsigned int
    var write: nat                // unsigned int
    var previous: Code
    ghost var stored: seq<Code>   // every code ever queued
    ghost var taken: nat          // how many of them were taken out

    constructor (size: nat)
      requires size > 0
      ensures this.size == size && Valid() && View() == Fifo([], NOTHING) && stored == []
    {
      this.size := size;
      data, read, write, previous, stored, taken := null, 0, 0, NOTHING, [], 0;
    }

    ghost predicate InRing(n: nat)
      requires data != null && n < |stored| && size > 0 && data.Length == size
      reads `data, `stored, data
    {
      data[Slot(size, n)] == stored[n]
    }

    ghost predicate Valid()
      reads this, data
    {
      && size > 0
      && taken <= |stored| <= taken + size
      && read == Counter(taken) && write == Counter(|stored|)
      && (data == null ==> stored == [])
      && (data != null ==> data.Length == size && forall n {:trigger InRing(n)} | taken <= n < |stored| :: InRing(n))
    }

    ghost function View(): Fifo
      requires Valid()
      reads this, data
    {
      Fifo(stored[taken..], previous)
    }

    /** mplayer_put_key_internal */
    method Put(code: Code)
      requires Valid() && size < WRAP && Orderly(size, |stored| + 1)
      modifies this, data
      ensures Valid() && (fresh(data) || data == old(data))
      ensures View() == AfterPut(size, old(View()), code) && taken == old(taken)
      ensures stored == old(stored) + match Stored(size, old(View()), code) { case None => [] case Some(c) => [c] }
    {
      FreeIs(size, taken, |stored|);
      var free := Free(size, read, write);
      if data == null { data := new Code[size](_ => NOTHING); }
      if free == 0 { return; }
      // the last half of the room is for releases
      if code.down && free <= size / 2 { return; }
      var c := code;
      // the last place takes a release of all keys
      if free == 1 {
        // one such code is enough
        if previous.releaseAll { return; }
        if code != previous { c := NOTHING; }
        c := c.(releaseAll := true);
      }
      Append(c);
      previous := if c.down then c.(down := false) else Code(0, false, c.releaseAll);
    }

    method Append(c: Code)
      requires Valid() && data != null && |stored| < taken + size && Orderly(size, |stored| + 1)
      modifies this`write, this`stored, data
      ensures Valid() && stored == old(stored) + [c]
    {
      ghost var n := |stored|;
      data[write % size] := c;
      NextCounter(n);
      write := (write + 1) % WRAP;
      stored := stored + [c];
      forall i | taken <= i < |stored| ensures InRing(i) {
        if i < n {
          assert old(InRing(i));
          SlotsApart(size, n + 1, i, n);
        }
      }
    }

    /** mplayer_get_key: the codes come out in the order in which they were queued. */
    method Get() returns (key: Option<Code>)
      requires Valid() && size < WRAP
      modifies this`read, this`taken
      ensures Valid() && stored == old(stored)
      ensures key == if old(taken) < |stored| then Some(stored[old(taken)]) else None
      ensures taken == old(taken) + if key.Some? then 1 else 0
      ensures View() == old(View()).(codes := if key.Some? then old(View()).codes[1..] else [])
    {
      CountersDiffer(size, taken, |stored|);
      if data == null { return None; }
      if write == read { return None; }
      assert InRing(taken);
      key := Some(data[read % size]);
      NextCounter(taken);
      read := (read + 1) % WRAP;
      taken := taken + 1;
    }
  }

  lemma FreeIs(size: nat, taken: nat, stored: nat)
    requires taken <= stored <= taken + size && size < WRAP
    ensures Free(size, Counter(taken), Counter(stored)) == size - (stored - taken)
  {
  }

  lemma CountersDiffer(size: nat, taken: nat, stored: nat)
    requires taken <= stored <= taken + size && size < WRAP
    ensures Counter(taken) == Counter(stored) <==> taken == stored
  {
  }

  lemma NextCounter(n: nat)
    ensures Counter(n + 1) == (Counter(n) + 1) % WRAP
  {
  }
}

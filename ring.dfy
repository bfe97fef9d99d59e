/** The circular buffer of the runtime (z_circular_buffer_t): `length` slots
    of `size`-byte records, a parallel array of slot states and two counters,
    `head` and `tail`, that both wrap at the largest multiple of `length` not
    above ULONG_MAX. Copying a record with z_memcpy is copying a value of the
    record type `T`.

    The model runs one operation at a time. Each compare-and-swap retry loop
    and each spin on a slot state is therefore a single step that succeeds
    the first time. The ghost sequence `Contents` holds the stored records,
    oldest first. */
module Ring {
  import opened Machine

  /** z_circular_buffer_state_t. IDLE is 0, so the zero-filled state array
      that z_calloc returns starts with every slot IDLE. */
  datatype SlotState = IDLE | PUTTING | VALID | TAKING

  /** `ULONG_MAX - (ULONG_MAX % length)`: the value both counters wrap at. */
  function Modulus(length: nat): nat
    requires 1 <= length <= ULONG_MAX
  {
    ULONG_MAX - ULONG_MAX % length
  }

  /** The slot `k` places after slot `s`, going round once at most. */
  function Advance(s: nat, k: nat, length: nat): (r: nat)
    requires s < length && k <= length
    ensures r < length
  {
    if s + k < length then s + k else s + k - length
  }

  /** How many places slot `j` lies after slot `s`. */
  function Distance(s: nat, j: nat, length: nat): (d: nat)
    requires s < length && j < length
    ensures d < length
    ensures Advance(s, d, length) == j
  {
    if s <= j then j - s else j + length - s
  }

  // ---------------------------------------------------------------------
  // Arithmetic of the wrapping counters

  lemma MulAtLeast(a: int, l: int)
    requires a >= 1 && l > 0
    ensures a * l >= l
  {
  }

  /** Quotient and remainder are unique. */
  lemma ModUnique(x: int, q: int, r: int, l: int)
    requires l > 0 && 0 <= r < l && x == q * l + r
    ensures x % l == r && x / l == q
  {
    var q0, r0 := x / l, x % l;
    assert x == q0 * l + r0;
    if q > q0 {
      assert (q - q0) * l >= l by { MulAtLeast(q - q0, l); }
    } else if q < q0 {
      assert (q0 - q) * l >= l by { MulAtLeast(q0 - q, l); }
    }
  }

  /** The wrap value is a multiple of `length` that fits in an unsigned
      long and holds at least one full round of slots. */
  lemma ModulusIsMultiple(length: nat)
    requires 1 <= length <= ULONG_MAX
    ensures length <= Modulus(length) <= ULONG_MAX
    ensures Modulus(length) % length == 0
  {
    var q := ULONG_MAX / length;
    assert ULONG_MAX == q * length + ULONG_MAX % length;
    assert Modulus(length) == q * length;
    ModUnique(Modulus(length), q, 0, length);
    MulAtLeast(q, length);
  }

  /** The slot of `c + k` is `k` places after the slot of `c`. */
  lemma SlotAfter(c: nat, k: nat, l: nat)
    requires l > 0 && k <= l
    ensures (c + k) % l == Advance(c % l, k, l)
  {
    var q := c / l;
    assert c == q * l + c % l;
    if c % l + k < l {
      ModUnique(c + k, q, c % l + k, l);
    } else {
      ModUnique(c + k, q + 1, c % l + k - l, l);
    }
  }

  /** Reducing modulo a multiple of `l` keeps the remainder modulo `l`. */
  lemma WrapSlot(x: nat, m: nat, l: nat)
    requires l > 0 && m > 0 && m % l == 0
    ensures (x % m) % l == x % l
  {
    var c := m / l;
    assert m == c * l;
    var y := x % m;
    assert x == (x / m) * m + y;
    assert x == ((x / m) * c + y / l) * l + y % l;
    ModUnique(x, (x / m) * c + y / l, y % l, l);
  }

  /** A counter below `m` advanced by at most `m` wraps at most once. */
  lemma WrapStep(c: nat, k: nat, m: nat)
    requires c < m && k <= m
    ensures (c + k) % m == if c + k < m then c + k else c + k - m
  {
    if c + k < m {
      ModUnique(c + k, 0, c + k, m);
    } else {
      ModUnique(c + k, 1, c + k - m, m);
    }
  }

  /** One step of a counter moves its slot index by exactly one place, also
      when the counter wraps: the wrap value is a multiple of `length`. */
  lemma CounterStep(c: nat, length: nat)
    requires 1 <= length <= ULONG_MAX && c < Modulus(length)
    ensures ((c + 1) % Modulus(length)) % length == Advance(c % length, 1, length)
  {
    ModulusIsMultiple(length);
    WrapSlot(c + 1, Modulus(length), length);
    SlotAfter(c, 1, length);
  }

  /** The counter part of the buffer invariant: both counters below the wrap
      value, `n` records between them, fewer than `length`. */
  predicate Counters(head: nat, tail: nat, n: nat, length: nat)
  {
    && 1 <= length <= ULONG_MAX
    && head < Modulus(length) && tail < Modulus(length)
    && n < length
    && tail == (head + n) % Modulus(length)
  }

  /** Advancing `tail` adds a record; it goes into the slot `n` places after
      the slot of `head`. */
  lemma PushCounters(head: nat, tail: nat, n: nat, length: nat)
    requires Counters(head, tail, n, length) && n + 1 < length
    ensures Counters(head, (tail + 1) % Modulus(length), n + 1, length)
    ensures tail % length == Advance(head % length, n, length)
  {
    var m := Modulus(length);
    ModulusIsMultiple(length);
    WrapSlot(head + n, m, length);
    SlotAfter(head, n, length);
    SlotAfter(head + n, 1, m);
    WrapStep(tail, 1, m);
  }

  /** Advancing `head` removes the oldest record; the slot of `head` moves
      one place on. */
  lemma PopCounters(head: nat, tail: nat, n: nat, length: nat)
    requires Counters(head, tail, n, length) && n > 0
    ensures Counters((head + 1) % Modulus(length), tail, n - 1, length)
    ensures ((head + 1) % Modulus(length)) % length == Advance(head % length, 1, length)
  {
    var m := Modulus(length);
    ModulusIsMultiple(length);
    CounterStep(head, length);
    SlotAfter(head + 1, n - 1, m);
    WrapStep((head + 1) % m, n - 1, m);
  }

  // ---------------------------------------------------------------------
  // The buffer

  class CircularBuffer<T(0)> {
    var head: nat
    var tail: nat
    /** Bytes per record: what z_memcpy copies. */
    const size: nat
    const length: nat
    const records: array<T>
    const state: array<SlotState>

    /** The stored records, oldest first. */
    ghost var Contents: seq<T>

    /** `head` and `tail` stay below the wrap value and are `|Contents|`
        apart; record `k` sits `k` slots after the slot of `head`; the slots
        that hold a record are VALID and all others IDLE. */
    ghost predicate Valid()
      reads this, records, state
    {
      && Counters(head, tail, |Contents|, length)
      && records.Length == length && state.Length == length
      && records as object != state as object
      && (forall k :: 0 <= k < |Contents| ==> records[Advance(head % length, k, length)] == Contents[k])
      && (forall j :: 0 <= j < length ==>
            state[j] == if Distance(head % length, j, length) < |Contents| then VALID else IDLE)
    }

    /** z_circular_buffer_init: both counters 0, the record area and the
        state array from z_calloc, so every slot is IDLE. */
    constructor (size: nat, length: nat)
      requires 1 <= length <= ULONG_MAX
      ensures Valid() && fresh(records) && fresh(state)
      ensures head == 0 && tail == 0 && this.size == size && this.length == length
      ensures Contents == []
      ensures forall j :: 0 <= j < length ==> state[j] == IDLE
    {
      head := 0;
      tail := 0;
      this.size := size;
      this.length := length;
      records := new T[length];
      state := new SlotState[length](_ => IDLE);
      Contents := [];
      ModulusIsMultiple(length);
    }

    /** The slot of `tail` is `|Contents|` places after the slot of `head`. */
    lemma TailSlot()
      requires Valid()
      ensures tail % length == Advance(head % length, |Contents|, length)
    {
      ModulusIsMultiple(length);
      WrapSlot(head + |Contents|, Modulus(length), length);
      SlotAfter(head, |Contents|, length);
    }

    /** z_circular_buffer_size: `(tail % length + length - head % length) %
        length`, with the sum computed in 64 bits. It is the number of
        stored records whenever `2 * length` fits in 64 bits. */
    function Size(): (n: nat)
      reads this, records, state
      requires Valid()
      ensures n < length
      ensures 2 * length <= TWO_64 ==> n == |Contents|
    {
      SizeCounts();
      ((tail % length + length - head % length) % TWO_64) % length
    }

    /** Without the 64-bit wrap, the size formula counts the records. */
    lemma SizeCounts()
      requires Valid()
      ensures (tail % length + length - head % length) % length == |Contents|
    {
      TailSlot();
      var sum := tail % length + length - head % length;
      if head % length + |Contents| < length {
        ModUnique(sum, 1, |Contents|, length);
      } else {
        ModUnique(sum, 0, |Contents|, length);
      }
    }

    /** z_circular_buffer_full: one more record would bring the slot of
        `tail` round to the slot of `head`; so `length - 1` records fill the
        buffer. */
    function Full(): (b: bool)
      reads this, records, state
      requires Valid()
      ensures b <==> |Contents| == length - 1
    {
      TailSlot();
      SlotAfter(tail, 1, length);
      (tail + 1) % length == head % length
    }

    /** z_circular_buffer_empty: the counters are equal. */
    function Empty(): (b: bool)
      reads this, records, state
      requires Valid()
      ensures b <==> |Contents| == 0
    {
      ModulusIsMultiple(length);
      WrapStep(head, |Contents|, Modulus(length));
      head == tail
    }

    /** z_circular_buffer_enqueue. A full buffer is left as it is. Otherwise
        `tail` advances, the slot it pointed at goes IDLE -> PUTTING, receives
        the record and becomes VALID; no other slot and no other record
        changes. */
    method Enqueue(item: T) returns (ok: bool)
      requires Valid()
      modifies this, records, state
      ensures Valid()
      ensures ok <==> old(|Contents|) < length - 1
      ensures ok ==> Contents == old(Contents) + [item]
      ensures ok ==> head == old(head) && tail == (old(tail) + 1) % Modulus(length)
      ensures ok ==> old(state[tail % length]) == IDLE
      ensures ok ==> records[..] == old(records[..])[old(tail) % length := item]
      ensures ok ==> state[..] == old(state[..])[old(tail) % length := VALID]
      ensures !ok ==> unchanged(this, records, state)
    {
      var index := tail;
      if Full() {
        return false;
      }
      ghost var s, n := head % length, |Contents|;
      PushCounters(head, tail, n, length);
      tail := (index + 1) % Modulus(length);
      index := index % length;
      assert index == Advance(s, n, length);
      assert state[index] == IDLE by {
        assert Distance(s, index, length) == n;
      }
      state[index] := PUTTING;
      records[index] := item;
      state[index] := VALID;
      Contents := Contents + [item];
      forall k | 0 <= k < n + 1
        ensures records[Advance(s, k, length)] == Contents[k]
      {
        if k < n {
          var slot := Advance(s, k, length);
          assert slot != index;
          assert old(records[slot]) == old(Contents)[k];
        }
      }
      forall j | 0 <= j < length
        ensures state[j] == if Distance(s, j, length) < n + 1 then VALID else IDLE
      {
        if j != index {
          assert Distance(s, j, length) != n;
        }
      }
      return true;
    }

    /** z_circular_buffer_dequeue. An empty buffer is left as it is and the
        caller's record `dst` is not written. Otherwise `head` advances, the
        slot it pointed at goes VALID -> TAKING, its record is copied out,
        and it becomes IDLE; no other slot changes and no record is
        overwritten. */
    method Dequeue(dst: T) returns (ok: bool, item: T)
      requires Valid()
      modifies this, state
      ensures Valid()
      ensures ok <==> old(|Contents|) > 0
      ensures ok ==> item == old(Contents)[0] && Contents == old(Contents)[1..]
      ensures ok ==> tail == old(tail) && head == (old(head) + 1) % Modulus(length)
      ensures ok ==> old(state[head % length]) == VALID
      ensures ok ==> state[..] == old(state[..])[old(head) % length := IDLE]
      ensures !ok ==> item == dst && unchanged(this, state)
    {
      var index := head;
      if Empty() {
        return false, dst;
      }
      ghost var s, n := head % length, |Contents|;
      PopCounters(head, tail, n, length);
      head := (index + 1) % Modulus(length);
      index := index % length;
      ghost var s' := Advance(s, 1, length);
      assert head % length == s';
      assert records[Advance(index, 0, length)] == Contents[0];
      assert state[index] == VALID by {
        assert Distance(index, index, length) == 0;
      }
      state[index] := TAKING;
      item := records[index];
      state[index] := IDLE;
      Contents := Contents[1..];
      forall k | 0 <= k < n - 1
        ensures records[Advance(s', k, length)] == Contents[k]
      {
        assert Advance(s', k, length) == Advance(s, k + 1, length);
      }
      forall j | 0 <= j < length
        ensures state[j] == if Distance(s', j, length) < n - 1 then VALID else IDLE
      {
        if j != index {
          assert Distance(s', j, length) == Distance(s, j, length) - 1;
        }
      }
      return true, item;
    }
  }

  /** A buffer of four slots takes three records; the fourth is refused. */
  method FourSlotsHoldThree() returns (ring: CircularBuffer<int>, accepted: seq<bool>)
    ensures ring.Valid() && ring.length == 4 && ring.Contents == [10, 20, 30]
    ensures accepted == [true, true, true, false]
  {
    ring := new CircularBuffer<int>(8, 4);
    var a := ring.Enqueue(10);
    var b := ring.Enqueue(20);
    var c := ring.Enqueue(30);
    var d := ring.Enqueue(40);
    accepted := [a, b, c, d];
  }

  /** Taking one record out of the full buffer makes room for one more, and
      records leave in the order they came in. */
  method TakeOneMakesRoom(ring: CircularBuffer<int>) returns (accepted: bool, taken: seq<int>)
    requires ring.Valid() && ring.length == 4 && ring.Contents == [10, 20, 30]
    modifies ring, ring.records, ring.state
    ensures accepted && taken == [10, 20, 30, 40]
    ensures ring.Valid() && ring.Contents == []
  {
    var ok1, x1 := ring.Dequeue(0);
    accepted := ring.Enqueue(40);
    var ok2, x2 := ring.Dequeue(0);
    var ok3, x3 := ring.Dequeue(0);
    var ok4, x4 := ring.Dequeue(0);
    taken := [x1, x2, x3, x4];
  }
}

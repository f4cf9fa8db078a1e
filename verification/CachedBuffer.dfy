/** The single-producer single-consumer ring of `CachedBuffer.h`, with its wrapping 64-bit counters. */
module CachedBuffer {
  import opened Bytes
  import opened Modular
  import opened Options

  // ---------------------------------------------------------------------------
  // Arithmetic of masks and wrapping counters
  // ---------------------------------------------------------------------------

  /** Bitwise conjunction of two naturals. */
  function And(x: nat, y: nat): nat {
    if x == 0 || y == 0 then 0
    else (if x % 2 == 1 && y % 2 == 1 then 1 else 0) + 2 * And(x / 2, y / 2)
  }

  /** Masking with a power of two less one is the remainder. */
  lemma {:induction false} AndMask(x: nat, k: nat)
    ensures And(x, Pow2(k) - 1) == x % Pow2(k)
  {
    if k > 0 {
      AndMask(x / 2, k - 1);
      HalfMod(x, Pow2(k - 1));
      AndHalves(x, Pow2(k - 1));
    }
  }

  lemma AndHalves(x: nat, p: nat)
    requires p > 0
    ensures And(x, 2 * p - 1) == x % 2 + 2 * And(x / 2, p - 1)
  {
    assert (2 * p - 1) / 2 == p - 1 && (2 * p - 1) % 2 == 1;
  }

  lemma {:induction false} Pow2Add(a: nat, b: nat)
    ensures Pow2(a + b) == Pow2(a) * Pow2(b)
  {
    if a > 0 {
      Pow2Add(a - 1, b);
      assert 2 * (Pow2(a - 1) * Pow2(b)) == (2 * Pow2(a - 1)) * Pow2(b);
    }
  }

  lemma Pow2Values()
    ensures Pow2(16) == 0x1_0000 && Pow2(32) == TWO32 && Pow2(64) == TWO64
  {
    assert Pow2(4) == 16;
    Pow2Add(4, 4);
    Pow2Add(8, 8);
    Pow2Add(16, 16);
    Pow2Add(32, 32);
  }

  lemma Pow2Monotone(a: nat, b: nat)
    requires a <= b
    ensures Pow2(a) <= Pow2(b)
  {
    Pow2Add(a, b - a);
    MulAtLeast(Pow2(b - a), Pow2(a));
  }

  /** The slot a counter maps to in a ring of `cap` slots: `counter & (capacity - 1)`. */
  function Index(counter: nat, cap: nat): nat
    requires cap > 0
  {
    And(counter, cap - 1)
  }

  lemma IndexInRange(c: nat, k: nat)
    ensures Index(c, Pow2(k)) < Pow2(k)
  {
    AndMask(c, k);
  }

  lemma CapacityDivides(k: nat) returns (d: nat)
    requires k <= 30
    ensures d > 0 && Pow2(k) * d == 0x1_0000_0000_0000_0000
  {
    d := Pow2(64 - k);
    Pow2Values();
    Pow2Add(k, 64 - k);
  }

  /** Reducing a counter modulo 2^64 first does not change the slot it maps to. */
  lemma WrapKeepsIndex(c: nat, k: nat)
    requires k <= 30
    ensures Index(Wrap(c), Pow2(k)) == Index(c, Pow2(k))
  {
    AndMask(c, k);
    AndMask(Wrap(c), k);
    var d := CapacityDivides(k);
    ModOfMod(c, Pow2(k), d);
  }

  /** Counters less than one lap apart map to different slots. */
  lemma IndexDistinct(a: nat, b: nat, k: nat)
    requires a < b < a + Pow2(k)
    ensures Index(a, Pow2(k)) != Index(b, Pow2(k))
  {
    AndMask(a, k);
    AndMask(b, k);
    RemaindersDistinct(a, b, Pow2(k));
  }

  /** The largest counter maps to the last slot. */
  lemma LastIndex(k: nat)
    requires k <= 30
    ensures Index(0xFFFF_FFFF_FFFF_FFFF, Pow2(k)) == Pow2(k) - 1
  {
    AndMask(0xFFFF_FFFF_FFFF_FFFF, k);
    var d := CapacityDivides(k);
    LastRemainder(Pow2(k), d);
  }

  /** Unsigned 64-bit arithmetic. */
  function Wrap(x: int): uint64 { x % 0x1_0000_0000_0000_0000 }

  /** Two naturals less than 2^64 apart agree modulo 2^64 only when equal. */
  lemma WrapInjective(a: int, b: int)
    requires a <= b < a + 0x1_0000_0000_0000_0000
    ensures Wrap(a) == Wrap(b) <==> a == b
  {
  }

  // ---------------------------------------------------------------------------
  // The ring as a value
  // ---------------------------------------------------------------------------

  datatype Ring<T> = Ring(slots: seq<T>, nHead: uint64, nCurrent: uint64, nTail: uint64) {
    predicate IsEmpty() { Wrap(nTail + 1) == nHead }

    predicate IsFull() { Wrap(nTail + 1 - |slots|) == nHead }

    function Allocate(): Option<nat>
      requires |slots| > 0
    {
      if IsFull() then None else Some(Index(Wrap(nTail + 1), |slots|))
    }

    function Front(): Option<nat>
      requires |slots| > 0
    {
      if IsEmpty() then None else Some(Index(nHead, |slots|))
    }

    function Current(): Option<nat>
      requires |slots| > 0
    {
      if IsEmpty() then None else Some(Index(nCurrent, |slots|))
    }

    function HeadForward(): Ring<T> {
      if IsEmpty() then this
      else
        var h := Wrap(nHead + 1);
        this.(nHead := h, nCurrent := if nCurrent < h then h else nCurrent)
    }

    function TailForward(): Ring<T> {
      if IsFull() then this else this.(nTail := Wrap(nTail + 1))
    }

    /** The write a producer makes through the address `Allocate` gave it. */
    function Store(slot: nat, v: T): Ring<T>
      requires slot < |slots|
    {
      this.(slots := slots[slot := v])
    }
  }

  /** `r` is the ring reached after `pushes` successful `tailForward`s and `pops` successful
      `headForward`s, counted without wrap-around. */
  ghost predicate Represents<T>(r: Ring<T>, k: nat, pops: nat, pushes: nat) {
    && k <= 30 && |r.slots| == Pow2(k) < TWO32
    && pops <= pushes <= pops + |r.slots|
    && r.nHead == Wrap(pops)
    && r.nTail == Wrap(pushes - 1)
    && r.nCurrent == if pops < TWO64 then pops else TWO64 - 1
  }

  /** The element that the unwrapped counter `c` refers to. */
  ghost function At<T>(r: Ring<T>, k: nat, c: nat): T
    requires |r.slots| == Pow2(k)
  {
    IndexInRange(c, k);
    r.slots[Index(c, |r.slots|)]
  }

  /** The elements waiting between head and tail, oldest first. */
  ghost function Queue<T>(r: Ring<T>, k: nat, pops: nat, pushes: nat): (q: seq<T>)
    requires |r.slots| == Pow2(k) && pops <= pushes
    ensures |q| == pushes - pops
    ensures forall i {:trigger q[i]} :: 0 <= i < |q| ==> q[i] == At(r, k, pops + i)
  {
    seq(pushes - pops, i requires 0 <= i => At(r, k, pops + i))
  }

  /** Every query on the wrapped counters answers what the unwrapped ones say: `isEmpty` and `isFull`
      are exact, the head slot is the oldest element's, and `allocate` gives the slot after the
      newest. */
  lemma Queries<T>(r: Ring<T>, k: nat, pops: nat, pushes: nat)
    requires Represents(r, k, pops, pushes)
    ensures r.IsEmpty() <==> pops == pushes
    ensures r.IsFull() <==> pushes == pops + |r.slots|
    ensures r.Front() == if pops == pushes then None else Some(Index(pops, |r.slots|))
    ensures r.Allocate() == if pushes == pops + |r.slots| then None else Some(Index(pushes, |r.slots|))
    ensures r.Front().Some? ==> r.Front().value < |r.slots|
    ensures r.Allocate().Some? ==> r.Allocate().value < |r.slots|
  {
    WrapSum(pushes - 1, 1);
    WrapSum(pushes - 1, 1 - |r.slots|);
    WrapInjective(pops, pushes);
    WrapInjective(pushes - |r.slots|, pops);
    WrapKeepsIndex(pops, k);
    WrapKeepsIndex(pushes, k);
    IndexInRange(pops, k);
    IndexInRange(pushes, k);
  }

  lemma WrapSum(x: int, d: int)
    ensures Wrap(Wrap(x) + d) == Wrap(x + d)
  {
  }

  /** The slot `allocate` returns is none of the live ones. */
  lemma AllocateIsNotLive<T>(r: Ring<T>, k: nat, pops: nat, pushes: nat, c: nat)
    requires Represents(r, k, pops, pushes) && pops <= c < pushes < pops + |r.slots|
    ensures r.Allocate().Some? && r.Allocate().value != Index(c, |r.slots|)
  {
    Queries(r, k, pops, pushes);
    IndexDistinct(c, pushes, k);
  }

  /** `nCurrent` follows the head until the head first wraps, and then stays at its largest value. */
  lemma CurrentFollows(pops: nat, current: uint64)
    requires current == if pops < TWO64 then pops else TWO64 - 1
    ensures var h := Wrap(pops + 1);
      (if current < h then h else current) == if pops + 1 < TWO64 then pops + 1 else TWO64 - 1
  {
    if pops + 1 < TWO64 {
      assert Wrap(pops + 1) == pops + 1;
    } else if pops + 1 == TWO64 {
      assert Wrap(pops + 1) == 0;
    }
  }

  lemma HeadForwardRepresents<T>(r: Ring<T>, k: nat, pops: nat, pushes: nat)
    requires Represents(r, k, pops, pushes) && pops < pushes
    ensures Represents(r.HeadForward(), k, pops + 1, pushes)
  {
    assert !r.IsEmpty() by { Queries(r, k, pops, pushes); }
    WrapSum(pops, 1);
    CurrentFollows(pops, r.nCurrent);
  }

  lemma HeadForwardPops<T>(r: Ring<T>, k: nat, pops: nat, pushes: nat)
    requires Represents(r, k, pops, pushes) && pops < pushes
    ensures Represents(r.HeadForward(), k, pops + 1, pushes)
    ensures Queue(r.HeadForward(), k, pops + 1, pushes) == Queue(r, k, pops, pushes)[1..]
  {
    HeadForwardRepresents(r, k, pops, pushes);
  }

  lemma TailForwardPushes<T>(r: Ring<T>, k: nat, pops: nat, pushes: nat)
    requires Represents(r, k, pops, pushes) && pushes < pops + |r.slots|
    ensures Represents(r.TailForward(), k, pops, pushes + 1)
    ensures Queue(r.TailForward(), k, pops, pushes + 1) == Queue(r, k, pops, pushes) + [At(r, k, pushes)]
  {
    Queries(r, k, pops, pushes);
    WrapSum(pushes - 1, 1);
  }

  /** Writing through the allocated address leaves every waiting element as it was. */
  lemma StoreKeepsQueue<T>(r: Ring<T>, k: nat, pops: nat, pushes: nat, v: T)
    requires Represents(r, k, pops, pushes) && pushes < pops + |r.slots|
    ensures Index(pushes, |r.slots|) < |r.slots|
    ensures var r' := r.Store(Index(pushes, |r.slots|), v);
      && Represents(r', k, pops, pushes)
      && Queue(r', k, pops, pushes) == Queue(r, k, pops, pushes)
      && At(r', k, pushes) == v
  {
    IndexInRange(pushes, k);
    var r' := r.Store(Index(pushes, |r.slots|), v);
    forall c | pops <= c < pushes
      ensures At(r', k, c) == At(r, k, c)
    {
      IndexInRange(c, k);
      IndexDistinct(c, pushes, k);
    }
  }

  /** `current()` and `front()` name the same slot up to 2^64 pops. After that `nCurrent` is stuck at
      its largest value, and the two agree exactly when the head sits in the last slot. */
  lemma CurrentIsFrontExactly<T>(r: Ring<T>, k: nat, pops: nat, pushes: nat)
    requires Represents(r, k, pops, pushes) && pops < pushes
    ensures r.Current() == r.Front() <==> pops < TWO64 || Index(pops, |r.slots|) == |r.slots| - 1
  {
    Queries(r, k, pops, pushes);
    LastIndex(k);
  }

  // ---------------------------------------------------------------------------
  // Every run of the ring is a run of a bounded first-in first-out queue
  // ---------------------------------------------------------------------------

  datatype Op<T> = Push(v: T) | Pop
  datatype Seen<T> = Pushed | Refused | Popped(v: T) | Nothing | OutOfRange

  /** Push is `allocate`, a write, `tailForward`; pop is `front`, a read, `headForward`. */
  function RingOp<T>(r: Ring<T>, op: Op<T>): (s: (Ring<T>, Seen<T>))
    requires |r.slots| > 0
    ensures |s.0.slots| == |r.slots|
  {
    match op
    case Push(v) =>
      (match r.Allocate()
       case None => (r, Refused)
       case Some(slot) =>
         if slot < |r.slots| then (r.Store(slot, v).TailForward(), Pushed) else (r, OutOfRange))
    case Pop =>
      (match r.Front()
       case None => (r, Nothing)
       case Some(slot) =>
         if slot < |r.slots| then (r.HeadForward(), Popped(r.slots[slot])) else (r, OutOfRange))
  }

  function RingRun<T>(r: Ring<T>, ops: seq<Op<T>>): seq<Seen<T>>
    requires |r.slots| > 0
    decreases |ops|
  {
    if ops == [] then []
    else var (r', seen) := RingOp(r, ops[0]); [seen] + RingRun(r', ops[1..])
  }

  /** The reference: a list that refuses to grow past `bound`. */
  function FifoOp<T>(q: seq<T>, bound: nat, op: Op<T>): (seq<T>, Seen<T>) {
    match op
    case Push(v) => if |q| >= bound then (q, Refused) else (q + [v], Pushed)
    case Pop => if q == [] then (q, Nothing) else (q[1..], Popped(q[0]))
  }

  function FifoRun<T>(q: seq<T>, bound: nat, ops: seq<Op<T>>): seq<Seen<T>>
    decreases |ops|
  {
    if ops == [] then []
    else var (q', seen) := FifoOp(q, bound, ops[0]); [seen] + FifoRun(q', bound, ops[1..])
  }

  lemma RingStep<T>(r: Ring<T>, k: nat, pops: nat, pushes: nat, op: Op<T>) returns (pops': nat, pushes': nat)
    requires Represents(r, k, pops, pushes)
    ensures Represents(RingOp(r, op).0, k, pops', pushes')
    ensures (Queue(RingOp(r, op).0, k, pops', pushes'), RingOp(r, op).1)
            == FifoOp(Queue(r, k, pops, pushes), |r.slots|, op)
  {
    Queries(r, k, pops, pushes);
    pops', pushes' := pops, pushes;
    match op
    case Pop =>
      if pops < pushes {
        HeadForwardPops(r, k, pops, pushes);
        pops' := pops + 1;
      }
    case Push(v) =>
      if pushes < pops + |r.slots| {
        StoreKeepsQueue(r, k, pops, pushes, v);
        TailForwardPushes(r.Store(Index(pushes, |r.slots|), v), k, pops, pushes);
        pushes' := pushes + 1;
      }
  }

  lemma {:induction false} RunRefines<T>(r: Ring<T>, k: nat, pops: nat, pushes: nat, ops: seq<Op<T>>)
    requires Represents(r, k, pops, pushes)
    ensures RingRun(r, ops) == FifoRun(Queue(r, k, pops, pushes), |r.slots|, ops)
    decreases |ops|
  {
    if ops != [] {
      var pops', pushes' := RingStep(r, k, pops, pushes, ops[0]);
      RunRefines(RingOp(r, ops[0]).0, k, pops', pushes', ops[1..]);
    }
  }

  /** The counters as the constructor leaves them. */
  predicate Initial<T>(r: Ring<T>) {
    r.nHead == 0 && r.nCurrent == 0 && r.nTail == TWO64 - 1
  }

  lemma InitialRepresents<T>(r: Ring<T>, k: nat)
    requires Initial(r) && k <= 30 && |r.slots| == Pow2(k)
    ensures Represents(r, k, 0, 0)
  {
    Pow2Values();
    Pow2Monotone(k, 31);
    Pow2Add(31, 1);
    assert Pow2(1) == 2;
  }

  /** No run of any length, however often the counters wrap, tells the ring from a bounded queue. */
  lemma RingRefinesFifo<T>(r: Ring<T>, k: nat, ops: seq<Op<T>>)
    requires Initial(r) && k <= 30 && |r.slots| == Pow2(k)
    ensures RingRun(r, ops) == FifoRun([], Pow2(k), ops)
  {
    InitialRepresents(r, k);
    assert Queue(r, k, 0, 0) == [];
    RunRefines(r, k, 0, 0, ops);
  }

  // ---------------------------------------------------------------------------
  // The class
  // ---------------------------------------------------------------------------

  /** The constructor's sizing loop and shift: the largest power of two not above `cap`. (The
      correction after the loop never applies and is left out: the loop leaves `cap` at 0.) */
  method PowerOfTwoBelow(cap: nat) returns (size: nat, ghost k: nat)
    requires 1 <= cap < 0x8000_0000
    ensures k <= 30 && size == Pow2(k) && size <= cap < 2 * size
  {
    var n: nat, c: nat := 0, cap;
    while c != 0
      invariant c <= cap
      invariant Brackets(c, Pow2(n), cap)
      invariant c == 0 ==> n > 0 && Pow2(n - 1) <= cap < Pow2(n)
    {
      HalveBounds(c, Pow2(n), cap);
      n := n + 1;
      c := c / 2;
    }
    size, k := Pow2(n - 1), n - 1;
    ExponentBound(k);
  }

  lemma ExponentBound(k: nat)
    requires Pow2(k) < 0x8000_0000
    ensures k <= 30
  {
    Pow2Values();
    Pow2Add(31, 1);
    assert Pow2(1) == 2;
    if k > 30 {
      Pow2Monotone(31, k);
    }
  }

  /** `cap` shifted right until `c` is left, the shifts amounting to `p`. */
  ghost predicate Brackets(c: nat, p: nat, cap: nat) { c * p <= cap < c * p + p }

  lemma HalveBounds(c: nat, p: nat, cap: nat)
    requires c >= 1 && Brackets(c, p, cap)
    ensures Brackets(c / 2, 2 * p, cap)
    ensures c == 1 ==> p <= cap < 2 * p
  {
    var h, b := c / 2, c % 2;
    var hp := h * p;
    assert c * p == 2 * hp + b * p by { assert c == 2 * h + b; Distribute(2 * h, b, p); Double(h, p); }
    assert h * (2 * p) == 2 * hp;
    assert b == 0 || b == 1;
  }

  lemma Distribute(a: int, b: int, p: int)
    ensures (a + b) * p == a * p + b * p
  {
  }

  lemma Double(h: int, p: int)
    ensures (2 * h) * p == 2 * (h * p)
  {
  }

  class CachedBuffer<T(0)> {
    var elements: array<T>
    var capacity: nat
    var nHead: uint64
    var nCurrent: uint64
    var nTail: uint64
    ghost var k: nat
    ghost var pops: nat
    ghost var pushes: nat

    ghost function Snapshot(): Ring<T>
      reads this, elements
    {
      Ring(elements[..], nHead, nCurrent, nTail)
    }

    ghost predicate Valid()
      reads this, elements
    {
      capacity == elements.Length && Represents(Snapshot(), k, pops, pushes)
    }

    /** The waiting elements, oldest first. */
    ghost function Contents(): seq<T>
      requires Valid()
      reads this, elements
    {
      Queue(Snapshot(), k, pops, pushes)
    }

    constructor (cap: nat)
      requires 1 <= cap < 0x8000_0000
      ensures Valid() && fresh(elements)
      ensures capacity == Pow2(k) && capacity <= cap < 2 * capacity
      ensures Contents() == [] && Initial(Snapshot())
    {
      var size, e := PowerOfTwoBelow(cap);
      elements := new T[size];
      capacity := size;
      nHead, nCurrent, nTail := 0, 0, 0xFFFF_FFFF_FFFF_FFFF;
      k, pops, pushes := e, 0, 0;
      new;
      InitialRepresents(Snapshot(), k);
    }

    method IsEmpty() returns (b: bool)
      requires Valid()
      ensures b <==> Contents() == []
    {
      Queries(Snapshot(), k, pops, pushes);
      b := Wrap(nTail + 1) == nHead;
    }

    method IsFull() returns (b: bool)
      requires Valid()
      ensures b <==> |Contents()| == capacity
    {
      Queries(Snapshot(), k, pops, pushes);
      b := Wrap(nTail + 1 - capacity) == nHead;
    }

    /** A slot index stands for the address the source returns. */
    method Allocate() returns (slot: Option<nat>)
      requires Valid()
      ensures capacity > 0
      ensures slot.None? <==> |Contents()| == capacity
      ensures slot.Some? ==> slot.value == Index(pushes, capacity) < capacity
      ensures slot.Some? ==>
        forall c {:trigger Index(c, capacity)} :: pops <= c < pushes ==> Index(c, capacity) != slot.value
    {
      Queries(Snapshot(), k, pops, pushes);
      var full := IsFull();
      if full { return None; }
      slot := Some(Index(Wrap(nTail + 1), capacity));
      forall c {:trigger Index(c, capacity)} | pops <= c < pushes
        ensures Index(c, capacity) != slot.value
      {
        AllocateIsNotLive(Snapshot(), k, pops, pushes, c);
      }
    }

    method HeadForward() returns (ok: bool)
      requires Valid()
      modifies this
      ensures Valid() && elements == old(elements) && capacity == old(capacity)
      ensures ok <==> old(Contents()) != []
      ensures Contents() == if ok then old(Contents())[1..] else old(Contents())
      ensures pops == (if ok then old(pops) + 1 else old(pops)) && pushes == old(pushes)
    {
      ghost var r := Snapshot();
      var empty := IsEmpty();
      if empty { return false; }
      assert !r.IsEmpty() by { Queries(r, k, pops, pushes); }
      HeadForwardPops(r, k, pops, pushes);
      nHead := Wrap(nHead + 1);
      if nCurrent < nHead { nCurrent := nHead; }
      pops := pops + 1;
      assert Snapshot() == r.HeadForward();
      ok := true;
    }

    method TailForward() returns (ok: bool)
      requires Valid()
      modifies this
      ensures Valid() && elements == old(elements) && capacity == old(capacity)
      ensures ok <==> |old(Contents())| < capacity
      ensures pushes == (if ok then old(pushes) + 1 else old(pushes)) && pops == old(pops) && k == old(k)
      ensures Contents() == if ok then old(Contents()) + [At(Snapshot(), k, old(pushes))] else old(Contents())
    {
      ghost var r := Snapshot();
      var full := IsFull();
      if full { return false; }
      assert !r.IsFull() by { Queries(r, k, pops, pushes); }
      TailForwardPushes(r, k, pops, pushes);
      nTail := Wrap(nTail + 1);
      pushes := pushes + 1;
      assert Snapshot() == r.TailForward();
      ok := true;
    }

    method Front() returns (slot: Option<nat>)
      requires Valid()
      ensures slot.None? <==> Contents() == []
      ensures slot.Some? ==> slot.value < elements.Length && elements[slot.value] == Contents()[0]
    {
      Queries(Snapshot(), k, pops, pushes);
      var empty := IsEmpty();
      if empty { return None; }
      slot := Some(Index(nHead, capacity));
    }

    /** The slot the send loop transmits from. It is the oldest element's for the first 2^64 pops. */
    method Current() returns (slot: Option<nat>)
      requires Valid()
      ensures slot.None? <==> Contents() == []
      ensures slot.Some? ==>
        (slot == Snapshot().Front() <==> pops < TWO64 || Index(pops, elements.Length) == elements.Length - 1)
    {
      Queries(Snapshot(), k, pops, pushes);
      if pops < pushes { CurrentIsFrontExactly(Snapshot(), k, pops, pushes); }
      var empty := IsEmpty();
      if empty { return None; }
      slot := Some(Index(nCurrent, capacity));
    }
  }
}

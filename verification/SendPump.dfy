/** The sending side of `SolcomApi`: producers calling `postMsg`, the loop thread in `idle_cb` and
    `req_write_cb`, and libuv transmitting the submitted buffer in pieces. */
module SendPump {
  import opened Bytes
  import opened Codec
  import opened CachedBuffer
  import opened Options
  import CByteArray

  const SLOT_SIZE := CByteArray.DEFAULT_CAPACITY

  /** A `CByteArray` in the ring, seen from the loop: its storage and its right end. */
  datatype Slot = Slot(mem: seq<byte>, right: nat)

  /** Producers are serialised. `Filling` spans the writes of `postMsg` into its slot, `Filled` the
      time from the last of them to `tailForward`. */
  datatype Producer = Idling | Filling(slot: nat, msg: Msg) | Filled(slot: nat, msg: Msg)

  /** The outstanding `uv_write`: a reference to a slot and a length, not a copy of the bytes. */
  datatype Write = Write(slot: nat, len: nat, live: bool)

  /** `accepted` are the messages `postMsg` returned success for, `pops` the completed writes, `base`
      the value of `pops` when the connection came up, `wire` the bytes transmitted on it, `sent` how
      many of them belong to the write in progress, `submitted` the calls of `uv_write`. */
  datatype Pump = Pump(
    ring: Ring<Slot>, connected: bool, busy: bool, producer: Producer, write: Option<Write>,
    accepted: seq<Msg>, pops: nat, base: nat, wire: seq<byte>, sent: nat, submitted: nat)

  datatype Step =
    | Begin(msg: Msg)          // postMsg: connection check and allocate
    | Scribble(content: Slot)  // postMsg: any intermediate content of the slot
    | Finish                   // postMsg: the slot is complete
    | Commit                   // postMsg: tailForward
    | Idle(ok: bool)           // idle_cb: submit the current slot; uv_write may fail at once
    | Send(n: nat)             // libuv transmits n more bytes of the submitted buffer
    | WriteDone                // req_write_cb with success
    | WriteFail                // req_write_cb with an error
    | Disconnect               // closeConnection
    | Connect                  // connect_cb with success, after libuv has reported every old write

  function PutSlot(s: Pump, slot: nat, v: Slot): Pump {
    if slot < |s.ring.slots| then s.(ring := s.ring.Store(slot, v)) else s
  }

  /** The slot after the whole of `CByteArray.EncodeInto`. */
  function Written(was: Slot, m: Msg): Slot {
    if |was.mem| >= SLOT_SIZE then Slot(CByteArray.Encoded(was.mem, m), |Encode(m)|) else was
  }

  /** One step of any of the parties; a step that is not enabled changes nothing. */
  function Apply(s: Pump, step: Step): Pump {
    if |s.ring.slots| == 0 then s else
    match step
    case Begin(m) =>
      if s.producer.Idling? && s.connected && s.ring.Allocate().Some?
      then s.(producer := Filling(s.ring.Allocate().value, m)) else s
    case Scribble(content) =>
      if s.producer.Filling? && |content.mem| == SLOT_SIZE then PutSlot(s, s.producer.slot, content) else s
    case Finish =>
      if s.producer.Filling? && s.producer.slot < |s.ring.slots| then
        var p := s.producer;
        PutSlot(s, p.slot, Written(s.ring.slots[p.slot], p.msg)).(producer := Filled(p.slot, p.msg))
      else s
    case Commit =>
      if s.producer.Filled?
      then s.(ring := s.ring.TailForward(), accepted := s.accepted + [s.producer.msg], producer := Idling) else s
    case Idle(ok) =>
      if s.connected && !s.busy && s.ring.Current().Some? && s.ring.Current().value < |s.ring.slots| then
        var c := s.ring.Current().value;
        s.(busy := true, submitted := s.submitted + 1,
           write := if ok then Some(Write(c, s.ring.slots[c].right, true)) else None)
      else s
    case Send(n) =>
      if s.write.Some? && s.write.value.live && s.write.value.slot < |s.ring.slots|
         && s.sent + n <= s.write.value.len <= |s.ring.slots[s.write.value.slot].mem|
      then s.(wire := s.wire + s.ring.slots[s.write.value.slot].mem[s.sent..s.sent + n], sent := s.sent + n) else s
    case WriteDone =>
      if s.write.Some? && s.sent == s.write.value.len
      then s.(ring := s.ring.HeadForward(), busy := false, write := None, pops := s.pops + 1, sent := 0) else s
    case WriteFail =>
      if s.write.Some? then s.(connected := false, write := None) else s
    case Disconnect =>
      s.(connected := false, write := if s.write.Some? then Some(s.write.value.(live := false)) else None)
    case Connect =>
      if !s.connected && s.write.None?
      then s.(connected := true, wire := [], base := s.pops, sent := 0) else s
  }

  function Run(s: Pump, steps: seq<Step>): Pump
    decreases |steps|
  {
    if steps == [] then s else Run(Apply(s, steps[0]), steps[1..])
  }

  /** As constructed: an empty ring of 2^k slots, not connected, nothing sent. */
  predicate Init(s: Pump, k: nat) {
    && Initial(s.ring) && k <= 30 && |s.ring.slots| == Pow2(k)
    && (forall i :: 0 <= i < |s.ring.slots| ==> |s.ring.slots[i].mem| == SLOT_SIZE)
    && s == Pump(s.ring, false, false, Idling, None, [], 0, 0, [], 0, 0)
  }

  /** The bytes that a list of messages becomes. */
  function Flatten(ms: seq<Msg>): seq<byte> {
    if ms == [] then [] else Encode(ms[0]) + Flatten(ms[1..])
  }

  lemma {:induction false} FlattenAppend(a: seq<Msg>, b: seq<Msg>)
    ensures Flatten(a + b) == Flatten(a) + Flatten(b)
  {
    if a == [] {
      assert a + b == b;
    } else {
      assert (a + b)[1..] == a[1..] + b;
      FlattenAppend(a[1..], b);
    }
  }

  lemma FlattenLast(ms: seq<Msg>, m: Msg)
    ensures Flatten(ms + [m]) == Flatten(ms) + Encode(m)
  {
    FlattenAppend(ms, [m]);
    assert Flatten([m]) == Encode(m) + Flatten([]);
  }

  predicate Holds(slot: Slot, m: Msg) {
    slot.right == |Encode(m)| <= |slot.mem| && slot.mem[..slot.right] == Encode(m)
  }

  // ---------------------------------------------------------------------------
  // The invariant
  // ---------------------------------------------------------------------------

  ghost predicate Counters(s: Pump, k: nat) {
    && Represents(s.ring, k, s.pops, |s.accepted|)
    && (forall i :: 0 <= i < |s.ring.slots| ==> |s.ring.slots[i].mem| == SLOT_SIZE)
    && s.base <= s.pops
    && s.submitted == s.pops + (if s.busy then 1 else 0)
    && (s.write.Some? ==> s.busy && (s.connected ==> s.write.value.live))
    && (s.busy ==> s.pops < |s.accepted|)
    && (!s.busy ==> s.sent == 0)
    && (!s.producer.Idling? ==>
          |s.accepted| < s.pops + |s.ring.slots| && s.producer.slot == Index(|s.accepted|, |s.ring.slots|))
  }

  /** The slots between head and tail hold the accepted messages not yet popped. */
  ghost predicate Stored(s: Pump, k: nat)
    requires Counters(s, k)
  {
    && (forall c {:trigger At(s.ring, k, c)} :: s.pops <= c < |s.accepted| ==> Holds(At(s.ring, k, c), s.accepted[c]))
    && (s.producer.Filled? ==> Holds(At(s.ring, k, |s.accepted|), s.producer.msg))
  }

  /** The outstanding write is the head slot's, and what went out is the messages since the connection
      came up followed by a part of the one in progress. */
  ghost predicate Transmitting(s: Pump, k: nat)
    requires Counters(s, k)
  {
    && (s.write.Some? ==> s.write.value.slot == Index(s.pops, |s.ring.slots|)
                          && s.write.value.len == |Encode(s.accepted[s.pops])|)
    && (s.busy ==> s.sent <= |Encode(s.accepted[s.pops])|)
    && s.wire == Flatten(s.accepted[s.base..s.pops])
                 + (if s.busy then Encode(s.accepted[s.pops])[..s.sent] else [])
  }

  /** The counters are right for ever; what depends on `nCurrent`, for the first 2^64 pops. */
  ghost predicate Inv(s: Pump, k: nat) {
    Counters(s, k) && (s.pops < TWO64 ==> Stored(s, k) && Transmitting(s, k))
  }

  lemma InitInv(s: Pump, k: nat)
    requires Init(s, k)
    ensures Inv(s, k)
  {
    InitialRepresents(s.ring, k);
    assert Flatten([]) == [];
  }

  lemma BeginInv(s: Pump, k: nat, m: Msg)
    requires Inv(s, k)
    ensures Inv(Apply(s, Begin(m)), k)
  {
    Queries(s.ring, k, s.pops, |s.accepted|);
  }

  /** Writing the producer's slot disturbs no waiting message and not the one in transmission. */
  lemma PutInv(s: Pump, k: nat, v: Slot)
    requires Inv(s, k) && s.producer.Filling? && |v.mem| == SLOT_SIZE
    ensures s.producer.slot < |s.ring.slots|
    ensures Inv(PutSlot(s, s.producer.slot, v), k) && At(PutSlot(s, s.producer.slot, v).ring, k, |s.accepted|) == v
    ensures s.write.Some? && s.pops < TWO64 ==>
      && s.write.value.slot < |s.ring.slots|
      && PutSlot(s, s.producer.slot, v).ring.slots[s.write.value.slot] == s.ring.slots[s.write.value.slot]
  {
    var q := |s.accepted|;
    StoreKeepsQueue(s.ring, k, s.pops, q, v);
    var s' := PutSlot(s, s.producer.slot, v);
    forall c | s.pops <= c < q
      ensures At(s'.ring, k, c) == At(s.ring, k, c)
    {
      assert Queue(s'.ring, k, s.pops, q)[c - s.pops] == Queue(s.ring, k, s.pops, q)[c - s.pops];
    }
    IndexInRange(s.pops, k);
    if s.write.Some? {
      IndexDistinct(s.pops, q, k);
    }
  }

  lemma FinishInv(s: Pump, k: nat)
    requires Inv(s, k) && s.producer.Filling?
    ensures Inv(Apply(s, Finish), k)
  {
    IndexInRange(|s.accepted|, k);
    var p := s.producer;
    var v := Written(s.ring.slots[p.slot], p.msg);
    PutInv(s, k, v);
    assert Holds(v, p.msg);
    var s' := PutSlot(s, p.slot, v);
    assert Apply(s, Finish) == s'.(producer := Filled(p.slot, p.msg));
  }

  lemma SameSlots(r: Ring<Slot>, r': Ring<Slot>, k: nat, c: nat)
    requires |r.slots| == Pow2(k) && r'.slots == r.slots
    ensures At(r', k, c) == At(r, k, c)
  {
  }

  lemma CommitCounters(s: Pump, k: nat)
    requires Counters(s, k) && s.producer.Filled?
    ensures Counters(Apply(s, Commit), k)
  {
    TailForwardPushes(s.ring, k, s.pops, |s.accepted|);
  }

  lemma CommitInv(s: Pump, k: nat)
    requires Inv(s, k) && s.producer.Filled?
    ensures Inv(Apply(s, Commit), k)
  {
    var s' := Apply(s, Commit);
    CommitCounters(s, k);
    if s.pops < TWO64 {
      CommitStored(s, s', k);
      CommitWire(s, s', k);
    }
  }

  lemma CommitWire(s: Pump, s': Pump, k: nat)
    requires Counters(s, k) && Counters(s', k) && Transmitting(s, k)
    requires s' == s.(ring := s'.ring, producer := s'.producer, accepted := s'.accepted)
    requires s.accepted <= s'.accepted && |s'.ring.slots| == |s.ring.slots|
    ensures Transmitting(s', k)
  {
    assert s'.accepted[s.base..s.pops] == s.accepted[s.base..s.pops];
  }

  lemma CommitStored(s: Pump, s': Pump, k: nat)
    requires Counters(s, k) && Counters(s', k) && Stored(s, k) && s.producer.Filled? && s'.producer.Idling?
    requires s'.ring.slots == s.ring.slots && s'.pops == s.pops && s'.accepted == s.accepted + [s.producer.msg]
    ensures Stored(s', k)
  {
    forall c {:trigger At(s'.ring, k, c)} | s.pops <= c < |s'.accepted|
      ensures Holds(At(s'.ring, k, c), s'.accepted[c])
    {
      SameSlots(s.ring, s'.ring, k, c);
    }
  }

  lemma IdleInv(s: Pump, k: nat, ok: bool)
    requires Inv(s, k)
    ensures Inv(Apply(s, Idle(ok)), k)
  {
    Queries(s.ring, k, s.pops, |s.accepted|);
    IndexInRange(s.pops, k);
    if s.pops < |s.accepted| && s.pops < TWO64 {
      CurrentIsFrontExactly(s.ring, k, s.pops, |s.accepted|);
      assert Holds(At(s.ring, k, s.pops), s.accepted[s.pops]);
    }
  }

  lemma Piece(f: seq<byte>, m: seq<byte>, e: seq<byte>, i: nat, n: nat)
    requires i + n <= |e| <= |m| && m[..|e|] == e
    ensures (f + e[..i]) + m[i..i + n] == f + e[..i + n]
  {
    forall j | i <= j < i + n ensures m[j] == e[j] { assert m[j] == m[..|e|][j]; }
    assert m[i..i + n] == e[i..i + n];
    assert e[..i] + e[i..i + n] == e[..i + n];
  }

  lemma SendInv(s: Pump, k: nat, n: nat)
    requires Inv(s, k)
    ensures Inv(Apply(s, Send(n)), k)
  {
    var s' := Apply(s, Send(n));
    if s' != s && s.pops < TWO64 {
      IndexInRange(s.pops, k);
      var slot := At(s.ring, k, s.pops);
      assert Holds(slot, s.accepted[s.pops]);
      Piece(Flatten(s.accepted[s.base..s.pops]), slot.mem, Encode(s.accepted[s.pops]), s.sent, n);
    }
  }

  lemma WriteDoneCounters(s: Pump, k: nat)
    requires Counters(s, k) && s.write.Some? && s.sent == s.write.value.len
    ensures Counters(Apply(s, WriteDone), k)
  {
    HeadForwardPops(s.ring, k, s.pops, |s.accepted|);
  }

  lemma WriteDoneInv(s: Pump, k: nat)
    requires Inv(s, k) && s.write.Some? && s.sent == s.write.value.len
    ensures Inv(Apply(s, WriteDone), k)
  {
    var s' := Apply(s, WriteDone);
    WriteDoneCounters(s, k);
    if s'.pops < TWO64 {
      WriteDoneStored(s, s', k);
      WriteDoneWire(s, s', k);
    }
  }

  lemma WriteDoneStored(s: Pump, s': Pump, k: nat)
    requires Counters(s, k) && Counters(s', k) && Stored(s, k)
    requires s'.ring.slots == s.ring.slots && s'.pops == s.pops + 1
    requires s'.accepted == s.accepted && s'.producer == s.producer
    ensures Stored(s', k)
  {
    forall c {:trigger At(s'.ring, k, c)}
      ensures At(s'.ring, k, c) == At(s.ring, k, c)
    {
      SameSlots(s.ring, s'.ring, k, c);
    }
  }

  lemma WriteDoneWire(s: Pump, s': Pump, k: nat)
    requires Counters(s, k) && Counters(s', k) && Transmitting(s, k) && s.busy
    requires s.sent == |Encode(s.accepted[s.pops])| && s'.wire == s.wire && s'.base == s.base
    requires s'.accepted == s.accepted && s'.pops == s.pops + 1 && !s'.busy
    ensures Transmitting(s', k)
  {
    WireComplete(s.wire, s.accepted, s.base, s.pops, s.sent);
  }

  lemma WireComplete(wire: seq<byte>, ms: seq<Msg>, a: nat, b: nat, i: nat)
    requires a <= b < |ms| && i == |Encode(ms[b])| && wire == Flatten(ms[a..b]) + Encode(ms[b])[..i]
    ensures wire == Flatten(ms[a..b + 1]) + []
  {
    assert Encode(ms[b])[..i] == Encode(ms[b]);
    FlattenSlice(ms, a, b);
  }

  lemma FlattenSlice(ms: seq<Msg>, a: nat, b: nat)
    requires a <= b < |ms|
    ensures Flatten(ms[a..b + 1]) == Flatten(ms[a..b]) + Encode(ms[b])
  {
    var front, last := ms[a..b], ms[b];
    assert ms[a..b + 1] == front + [last];
    FlattenLast(front, last);
  }

  lemma ConnectionInv(s: Pump, k: nat, step: Step)
    requires Inv(s, k) && (step.WriteFail? || step.Disconnect? || step.Connect?)
    ensures Inv(Apply(s, step), k)
  {
    assert Flatten([]) == [];
    assert s.accepted[s.pops..s.pops] == [];
  }

  lemma StepInv(s: Pump, k: nat, step: Step)
    requires Inv(s, k)
    ensures Inv(Apply(s, step), k)
  {
    match step
    case Begin(m) => BeginInv(s, k, m);
    case Scribble(v) => if s.producer.Filling? && |v.mem| == SLOT_SIZE { PutInv(s, k, v); }
    case Finish => if s.producer.Filling? { FinishInv(s, k); }
    case Commit => if s.producer.Filled? { CommitInv(s, k); }
    case Idle(ok) => IdleInv(s, k, ok);
    case Send(n) => SendInv(s, k, n);
    case WriteDone => if s.write.Some? && s.sent == s.write.value.len { WriteDoneInv(s, k); }
    case WriteFail => ConnectionInv(s, k, step);
    case Disconnect => ConnectionInv(s, k, step);
    case Connect => ConnectionInv(s, k, step);
  }

  lemma {:induction false} RunInv(s: Pump, k: nat, steps: seq<Step>)
    requires Inv(s, k)
    ensures Inv(Run(s, steps), k)
    decreases |steps|
  {
    if steps != [] {
      StepInv(s, k, steps[0]);
      RunInv(Apply(s, steps[0]), k, steps[1..]);
    }
  }

  // ---------------------------------------------------------------------------
  // What every interleaving guarantees
  // ---------------------------------------------------------------------------

  /** In every reachable state, write errors included: as many writes were submitted as were popped,
      plus one exactly while the busy flag is up; for fewer than 2^64 pops the slot to send next and
      the outstanding write are the ring's head slot; and the connection has carried the accepted
      messages from `base` on, each once and in order, the last one possibly in part. */
  lemma PumpSafety(s0: Pump, k: nat, steps: seq<Step>)
    requires Init(s0, k)
    ensures var s := Run(s0, steps);
      && s.submitted == s.pops + (if s.busy then 1 else 0)
      && |s.ring.slots| > 0
      && (s.write.Some? ==> s.busy)
      && (s.pops < TWO64 && s.ring.Front().Some? ==> s.ring.Current() == s.ring.Front())
      && (s.pops < TWO64 && s.write.Some? ==> s.ring.Front() == Some(s.write.value.slot))
      && s.base <= s.pops <= |s.accepted|
      && (s.pops < TWO64 ==> s.wire <= Flatten(s.accepted[s.base..]))
  {
    InitInv(s0, k);
    RunInv(s0, k, steps);
    var s := Run(s0, steps);
    Queries(s.ring, k, s.pops, |s.accepted|);
    if s.pops < |s.accepted| { CurrentIsFrontExactly(s.ring, k, s.pops, |s.accepted|); }
    if s.pops < TWO64 { WireIsPrefix(s, k); }
  }

  lemma WireIsPrefix(s: Pump, k: nat)
    requires Inv(s, k) && s.pops < TWO64
    ensures s.wire <= Flatten(s.accepted[s.base..])
  {
    var a, b := s.accepted[s.base..s.pops], s.accepted[s.pops..];
    assert a + b == s.accepted[s.base..];
    FlattenAppend(a, b);
    if s.busy {
      assert b[0] == s.accepted[s.pops];
      var e, f := Encode(b[0]), Flatten(b[1..]);
      assert Flatten(b) == e + f;
      CutInside(Flatten(a), e, f, s.sent);
    }
  }

  lemma CutInside(a: seq<byte>, e: seq<byte>, f: seq<byte>, i: nat)
    requires i <= |e|
    ensures a + e[..i] <= a + (e + f)
  {
    assert a + (e + f) == (a + e[..i]) + (e[i..] + f);
  }

  /** No step of a producer changes the buffer that is being transmitted. */
  lemma ProducerSparesTransmission(s0: Pump, k: nat, steps: seq<Step>, step: Step)
    requires Init(s0, k) && (step.Begin? || step.Scribble? || step.Finish? || step.Commit?)
    ensures var s := Run(s0, steps); var s' := Apply(s, step);
      s.write.Some? && s.pops < TWO64 ==>
        && s'.write == s.write
        && s.write.value.slot < |s.ring.slots| == |s'.ring.slots|
        && s'.ring.slots[s.write.value.slot] == s.ring.slots[s.write.value.slot]
  {
    InitInv(s0, k);
    RunInv(s0, k, steps);
    var s := Run(s0, steps);
    IndexInRange(s.pops, k);
    IndexInRange(|s.accepted|, k);
    if s.producer.Filling? {
      match step
      case Scribble(v) => if |v.mem| == SLOT_SIZE { PutInv(s, k, v); }
      case Finish => PutInv(s, k, Written(s.ring.slots[s.producer.slot], s.producer.msg));
      case _ =>
    }
  }

  /** Nothing is withheld: with the connection up, no write outstanding and a message waiting, submit,
      transmit and complete puts exactly the oldest waiting message on the wire. */
  lemma DrainOne(s: Pump, k: nat)
    requires Inv(s, k) && s.connected && !s.busy && s.pops < |s.accepted| && s.pops + 1 < TWO64
    ensures var e := Encode(s.accepted[s.pops]);
      var s' := Run(s, [Idle(true), Send(|e|), WriteDone]);
      s' == s.(ring := s'.ring, pops := s.pops + 1, wire := s.wire + e, submitted := s.submitted + 1)
  {
    var e := Encode(s.accepted[s.pops]);
    RunThree(s, Idle(true), Send(|e|), WriteDone);
    var s1 := SubmitHead(s, k);
    SendWhole(s1, At(s.ring, k, s.pops), s.accepted[s.pops]);
  }

  /** Transmitting all of a buffer that holds a message. */
  lemma SendWhole(s: Pump, slot: Slot, m: Msg)
    requires s.write.Some? && s.write.value.live && s.sent == 0 && Holds(slot, m)
    requires s.write.value.slot < |s.ring.slots| && s.ring.slots[s.write.value.slot] == slot
    requires s.write.value.len == |Encode(m)|
    ensures Apply(s, Send(|Encode(m)|)) == s.(wire := s.wire + Encode(m), sent := |Encode(m)|)
  {
    assert slot.mem[0..|Encode(m)|] == slot.mem[..slot.right];
  }

  lemma SubmitHead(s: Pump, k: nat) returns (s1: Pump)
    requires Inv(s, k) && s.connected && !s.busy && s.pops < |s.accepted| && s.pops < TWO64
    ensures s1 == Apply(s, Idle(true))
    ensures Index(s.pops, |s.ring.slots|) < |s.ring.slots|
    ensures s1 == s.(busy := true, submitted := s.submitted + 1,
                     write := Some(Write(Index(s.pops, |s.ring.slots|), |Encode(s.accepted[s.pops])|, true)))
  {
    s1 := Apply(s, Idle(true));
    Queries(s.ring, k, s.pops, |s.accepted|);
    IndexInRange(s.pops, k);
    CurrentIsFrontExactly(s.ring, k, s.pops, |s.accepted|);
    assert Holds(At(s.ring, k, s.pops), s.accepted[s.pops]);
  }

  /** A write in progress on a live connection can be completed, and its message with it. */
  lemma EndWrite(s: Pump, k: nat)
    requires Inv(s, k) && s.connected && s.write.Some? && s.pops < TWO64
    ensures s.sent <= s.write.value.len
    ensures var s' := Run(s, [Send(s.write.value.len - s.sent), WriteDone]);
      s' == s.(ring := s'.ring, busy := false, write := None, pops := s.pops + 1, sent := 0, wire := s'.wire)
  {
    SendRest(s, k);
    RunTwo(s, Send(s.write.value.len - s.sent), WriteDone);
  }

  lemma SendRest(s: Pump, k: nat)
    requires Inv(s, k) && s.connected && s.write.Some? && s.pops < TWO64
    ensures |s.ring.slots| > 0 && s.sent <= s.write.value.len
    ensures var s' := Apply(s, Send(s.write.value.len - s.sent)); s' == s.(wire := s'.wire, sent := s.write.value.len)
  {
    IndexInRange(s.pops, k);
    assert Holds(At(s.ring, k, s.pops), s.accepted[s.pops]);
  }

  lemma RunTwo(s: Pump, a: Step, b: Step)
    ensures Run(s, [a, b]) == Apply(Apply(s, a), b)
  {
    assert [a, b][1..] == [b];
    var one := [b];
    assert one[1..] == [];
    assert Run(Apply(s, a), one) == Run(Apply(Apply(s, a), b), []);
  }

  /** A write has been reported as failed, or refused at once, and the busy flag is still set. */
  predicate Halted(s: Pump) { s.busy && s.write.None? }

  lemma HaltedStep(s: Pump, step: Step)
    requires Halted(s)
    ensures var s' := Apply(s, step);
      Halted(s') && s'.pops == s.pops && s'.submitted == s.submitted && (s'.wire == s.wire || s'.wire == [])
  {
  }

  /** Such a sender has stopped for good: whatever happens, new connections included, it submits nothing,
      completes nothing and puts no further byte on any wire. */
  lemma {:induction false} HaltedForever(s: Pump, steps: seq<Step>)
    requires Halted(s)
    ensures var s' := Run(s, steps);
      Halted(s') && s'.pops == s.pops && s'.submitted == s.submitted && (s'.wire == s.wire || s'.wire == [])
    decreases |steps|
  {
    if steps != [] {
      HaltedStep(s, steps[0]);
      HaltedForever(Apply(s, steps[0]), steps[1..]);
    }
  }

  /** Posting succeeds exactly when connected with room, and then adds the message at the tail. */
  lemma PostOne(s: Pump, k: nat, m: Msg)
    requires Inv(s, k) && s.producer.Idling?
    ensures Run(s, [Begin(m), Finish, Commit]).accepted ==
      if s.connected && |s.accepted| < s.pops + |s.ring.slots| then s.accepted + [m] else s.accepted
  {
    RunThree(s, Begin(m), Finish, Commit);
    var slot := Index(|s.accepted|, |s.ring.slots|);
    Queries(s.ring, k, s.pops, |s.accepted|);
    IndexInRange(|s.accepted|, k);
    var s1 := Apply(s, Begin(m));
    if s.connected && |s.accepted| < s.pops + |s.ring.slots| {
      assert s1 == s.(producer := Filling(slot, m));
      var s2 := Apply(s1, Finish);
      assert s2.producer == Filled(slot, m) && s2.accepted == s.accepted && |s2.ring.slots| > 0;
    } else {
      assert s1 == s && Apply(s, Finish) == s && Apply(s, Commit) == s;
    }
  }

  lemma RunThree(s: Pump, a: Step, b: Step, c: Step)
    ensures Run(s, [a, b, c]) == Apply(Apply(Apply(s, a), b), c)
  {
    assert [a, b, c][1..] == [b, c] && [b, c][1..] == [c];
    assert Run(Apply(Apply(s, a), b), [c]) == Apply(Apply(Apply(s, a), b), c);
  }

  // ---------------------------------------------------------------------------
  // Connections that are gone, writes that failed
  // ---------------------------------------------------------------------------

  /** Not connected, and libuv transmits nothing more of an outstanding write. */
  predicate Down(s: Pump) { !s.connected && (s.write.Some? ==> !s.write.value.live) }

  /** The message a producer is in the middle of posting. */
  function InFlight(s: Pump): seq<Msg> { if s.producer.Idling? then [] else [s.producer.msg] }

  lemma DownStep(s: Pump, step: Step)
    requires Down(s) && !step.Connect?
    ensures var s' := Apply(s, step);
      && Down(s') && s'.submitted == s.submitted && s'.wire == s.wire
      && s'.accepted + InFlight(s') == s.accepted + InFlight(s)
  {
    if step.Commit? && s.producer.Filled? {
      assert (s.accepted + [s.producer.msg]) + [] == s.accepted + [s.producer.msg];
    }
  }

  lemma {:induction false} DownRun(s: Pump, steps: seq<Step>)
    requires Down(s) && forall i :: 0 <= i < |steps| ==> !steps[i].Connect?
    ensures var s' := Run(s, steps);
      && Down(s') && s'.submitted == s.submitted && s'.wire == s.wire
      && s'.accepted + InFlight(s') == s.accepted + InFlight(s)
    decreases |steps|
  {
    if steps != [] {
      DownStep(s, steps[0]);
      DownRun(Apply(s, steps[0]), steps[1..]);
    }
  }

  /** After the connection was closed, or a write was reported as failed, and as long as no new one comes up:
      nothing is submitted, no byte goes on the wire, and nothing is accepted but the message a producer
      was already in the middle of posting. */
  lemma ClosedCarriesNothing(s: Pump, close: Step, steps: seq<Step>)
    requires |s.ring.slots| > 0 && (close.Disconnect? || (close.WriteFail? && s.write.Some?))
    requires forall i :: 0 <= i < |steps| ==> !steps[i].Connect?
    ensures var s' := Run(Apply(s, close), steps);
      && !s'.connected && s'.submitted == s.submitted && s'.wire == s.wire
      && s.accepted <= s'.accepted <= s.accepted + InFlight(s)
  {
    CloseIsDown(s, close);
    DownCarriesNothing(Apply(s, close), steps);
  }

  lemma CloseIsDown(s: Pump, close: Step)
    requires |s.ring.slots| > 0 && (close.Disconnect? || (close.WriteFail? && s.write.Some?))
    ensures var s' := Apply(s, close);
      && Down(s') && s'.submitted == s.submitted && s'.wire == s.wire
      && s'.accepted == s.accepted && s'.producer == s.producer
  {
  }

  lemma DownCarriesNothing(s: Pump, steps: seq<Step>)
    requires Down(s) && forall i :: 0 <= i < |steps| ==> !steps[i].Connect?
    ensures var s' := Run(s, steps);
      && !s'.connected && s'.submitted == s.submitted && s'.wire == s.wire
      && s.accepted <= s'.accepted <= s.accepted + InFlight(s)
  {
    DownRun(s, steps);
    AcceptedGrows(s, steps);
    var s' := Run(s, steps);
    PartOf(s'.accepted, InFlight(s'), s.accepted + InFlight(s));
  }

  lemma PartOf(a: seq<Msg>, b: seq<Msg>, whole: seq<Msg>)
    requires a + b == whole
    ensures a <= whole
  {
  }

  lemma {:induction false} AcceptedGrows(s: Pump, steps: seq<Step>)
    ensures s.accepted <= Run(s, steps).accepted
    decreases |steps|
  {
    if steps != [] { AcceptedGrows(Apply(s, steps[0]), steps[1..]); }
  }

  /** A write reported as failed, and one that `uv_write` refuses at once, leave the sender halted. */
  lemma FailedWriteHalts(s: Pump, k: nat)
    requires Inv(s, k) && s.pops < TWO64
    ensures s.write.Some? ==> Halted(Apply(s, WriteFail)) && !Apply(s, WriteFail).connected
    ensures s.connected && !s.busy && s.pops < |s.accepted| ==> Halted(Apply(s, Idle(false)))
  {
    if s.connected && !s.busy && s.pops < |s.accepted| {
      Queries(s.ring, k, s.pops, |s.accepted|);
      IndexInRange(s.pops, k);
      CurrentIsFrontExactly(s.ring, k, s.pops, |s.accepted|);
    }
  }

  /** While a slot is being filled it may hold anything. */
  lemma SlotInTransit(s: Pump, content: Slot)
    requires s.producer.Filling? && s.producer.slot < |s.ring.slots| && |content.mem| == SLOT_SIZE
    ensures Apply(s, Scribble(content)).ring.slots[s.producer.slot] == content
  {
  }
}

/** Sender, byte streams and receivers together: the order and integrity of messages over any number of
    connections. */
module EndToEnd {
  import opened Bytes
  import opened Codec
  import Pump = SendPump
  import Recv = Receiver

  /** A connection the client has given up. Its receiver may still be working off `wire`, what was sent on
      it: `got` bytes have arrived in a buffer that started as `mem`. The messages with index `base` up to
      `end` are those whose bytes may be in there. */
  datatype Link = Link(mem: seq<byte>, recv: Recv.Recv, got: nat, wire: seq<byte>, base: nat, end: nat)

  /** The sender, the receiver of its current connection, and the connections before it, oldest first. */
  datatype Sys = Sys(pump: Pump.Pump, mem: seq<byte>, recv: Recv.Recv, got: nat, past: seq<Link>)

  datatype Step =
    | Local(step: Pump.Step)       // any step of the sending side other than a new connection
    | Connect(mem: seq<byte>)      // a new connection: a new receiver with whatever memory it got
    | Deliver(n: nat)              // the current receiver is handed the next n bytes
    | Late(i: nat, n: nat)         // the receiver of an old connection is handed the next n bytes

  /** The current connection, as it will be remembered. */
  function Closed(s: Sys): Link {
    Link(s.mem, s.recv, s.got, s.pump.wire, s.pump.base, s.pump.submitted)
  }

  predicate CanTake(r: Recv.Recv, wire: seq<byte>, got: nat, n: nat) {
    got + n <= |wire| && r.InBounds() && n <= r.Room()
  }

  predicate CanConnect(s: Sys, mem: seq<byte>) {
    !s.pump.connected && s.pump.write.None? && |s.pump.ring.slots| > 0 && |mem| >= Recv.CAPACITY
  }

  function Apply(s: Sys, step: Step): Sys {
    match step
    case Local(p) => if p.Connect? then s else s.(pump := Pump.Apply(s.pump, p))
    case Connect(mem) =>
      if CanConnect(s, mem) then
        Sys(Pump.Apply(s.pump, Pump.Step.Connect), mem, Recv.Start(mem), 0, s.past + [Closed(s)])
      else s
    case Deliver(n) =>
      if CanTake(s.recv, s.pump.wire, s.got, n) then
        s.(recv := Recv.OnRead(s.recv, s.pump.wire[s.got..s.got + n]), got := s.got + n)
      else s
    case Late(i, n) =>
      if i < |s.past| && CanTake(s.past[i].recv, s.past[i].wire, s.past[i].got, n) then
        s.(past := s.past[i := TakeLate(s.past[i], n)])
      else s
  }

  function TakeLate(l: Link, n: nat): Link
    requires CanTake(l.recv, l.wire, l.got, n)
  {
    l.(recv := Recv.OnRead(l.recv, l.wire[l.got..l.got + n]), got := l.got + n)
  }

  function Run(s: Sys, steps: seq<Step>): Sys
    decreases |steps|
  {
    if steps == [] then s else Run(Apply(s, steps[0]), steps[1..])
  }

  predicate Init(s: Sys, k: nat) {
    Pump.Init(s.pump, k) && |s.mem| >= Recv.CAPACITY && s.recv == Recv.Start(s.mem) && s.got == 0 && s.past == []
  }

  // ---------------------------------------------------------------------------
  // What a prefix of the sent bytes parses to
  // ---------------------------------------------------------------------------

  /** Parsing a stream that starts with an encoded message yields that message first. */
  lemma ParseFirst(mem: seq<byte>, m: Msg, more: seq<byte>) returns (mem': seq<byte>)
    requires |mem| >= Recv.CAPACITY
    ensures |mem'| >= Recv.CAPACITY
    ensures var r := Recv.Parse(mem', more);
      Recv.Parse(mem, Encode(m) + more) == r.(out := [m] + r.out)
  {
    var p := Recv.EncodedPacket(m);
    mem' := Recv.ParsePacket(mem, p, more);
  }

  /** Any prefix of the bytes of some messages decodes, without failure, to a prefix of the messages,
      and what is left over is a proper part of the next one. */
  lemma {:induction false} PrefixParses(mem: seq<byte>, ms: seq<Msg>, w: seq<byte>)
    requires |mem| >= Recv.CAPACITY && w <= Pump.Flatten(ms)
    ensures var r := Recv.Parse(mem, w);
      && !r.crashed && r.out <= ms
      && (|r.out| == |ms| ==> r.rest == [])
      && (|r.out| < |ms| ==> r.rest < Encode(ms[|r.out|]))
    decreases |ms|
  {
    if ms == [] {
    } else if w < Encode(ms[0]) {
      Recv.ParsePart(mem, ms[0], w);
    } else {
      var e, f := Encode(ms[0]), Pump.Flatten(ms[1..]);
      var more := w[|e|..];
      SplitPrefix(e, f, w);
      var mem' := ParseFirst(mem, ms[0], more);
      PrefixParses(mem', ms[1..], more);
      PrefixCons(ms, Recv.Parse(mem', more).out);
    }
  }

  lemma PrefixCons(ms: seq<Msg>, out: seq<Msg>)
    requires ms != [] && out <= ms[1..]
    ensures [ms[0]] + out <= ms
    ensures |out| < |ms[1..]| ==> ms[1..][|out|] == ms[|[ms[0]] + out|]
  {
    assert [ms[0]] + ms[1..] == ms;
  }

  lemma SplitPrefix(e: seq<byte>, f: seq<byte>, w: seq<byte>)
    requires w <= e + f && !(w < e)
    ensures |e| <= |w| && w == e + w[|e|..] && w[|e|..] <= f
  {
    if |w| <= |e| {
      assert w == (e + f)[..|w|] == e[..|w|];
      assert e[..|e|] == e;
    }
    assert w[..|e|] == e;
    assert forall i :: 0 <= i < |w| - |e| ==> w[|e| + i] == (e + f)[|e| + i] == f[i];
  }

  /** All the bytes of some messages decode to all of the messages. */
  lemma {:induction false} WholeParses(mem: seq<byte>, ms: seq<Msg>)
    requires |mem| >= Recv.CAPACITY
    ensures Recv.Parse(mem, Pump.Flatten(ms)).out == ms
    decreases |ms|
  {
    if ms != [] {
      var mem' := ParseFirst(mem, ms[0], Pump.Flatten(ms[1..]));
      WholeParses(mem', ms[1..]);
    }
  }

  // ---------------------------------------------------------------------------
  // A receiver that follows the bytes of some messages
  // ---------------------------------------------------------------------------

  /** Handed the bytes `seen` in these chunks, a new receiver has come to the state `r`. */
  ghost predicate ReadIn(r: Recv.Recv, mem: seq<byte>, seen: seq<byte>, chunks: seq<seq<byte>>) {
    && |mem| >= Recv.CAPACITY && Recv.Legal(Recv.Start(mem), chunks)
    && Recv.Run(Recv.Start(mem), chunks) == r && Recv.Concat(chunks) == seen
  }

  ghost predicate Follows(r: Recv.Recv, mem: seq<byte>, seen: seq<byte>) {
    r.status.Open? && exists chunks :: ReadIn(r, mem, seen, chunks)
  }

  /** Its state is the one those bytes determine, however they were cut. */
  lemma FollowsParse(r: Recv.Recv, mem: seq<byte>, seen: seq<byte>)
    requires Follows(r, mem, seen)
    ensures |mem| >= Recv.CAPACITY && Recv.Matches(r, Recv.Parse(mem, seen))
  {
    var chunks :| ReadIn(r, mem, seen, chunks);
    Recv.ChunkIndependence(mem, chunks);
  }

  /** Having seen bytes of some messages, it has decoded a prefix of them and wants more. */
  lemma DecodedPrefix(r: Recv.Recv, mem: seq<byte>, seen: seq<byte>, ms: seq<Msg>)
    requires Follows(r, mem, seen) && seen <= Pump.Flatten(ms)
    ensures r.out <= ms && r.need > 0
  {
    FollowsParse(r, mem, seen);
    PrefixParses(mem, ms, seen);
    var p := Recv.Parse(mem, seen);
    if |p.out| < |ms| {
      Recv.ParsePart(mem, ms[|p.out|], p.rest);
    }
  }

  lemma DecodedAll(r: Recv.Recv, mem: seq<byte>, ms: seq<Msg>)
    requires Follows(r, mem, Pump.Flatten(ms))
    ensures r.out == ms
  {
    FollowsParse(r, mem, Pump.Flatten(ms));
    WholeParses(mem, ms);
  }

  lemma NothingDecoded(r: Recv.Recv, mem: seq<byte>)
    requires Follows(r, mem, [])
    ensures r.out == []
  {
    FollowsParse(r, mem, []);
  }

  /** It goes on following them, whatever part comes next: such bytes never close or crash it. */
  lemma FollowsOn(r: Recv.Recv, mem: seq<byte>, seen: seq<byte>, chunk: seq<byte>, ms: seq<Msg>)
    requires r.InBounds() && |chunk| <= r.Room()
    requires Follows(r, mem, seen) && seen <= Pump.Flatten(ms) && seen + chunk <= Pump.Flatten(ms)
    ensures Follows(Recv.OnRead(r, chunk), mem, seen + chunk)
  {
    DecodedPrefix(r, mem, seen, ms);
    Recv.StaysOpen(r, chunk);
    var chunks :| ReadIn(r, mem, seen, chunks);
    Recv.OneChunkMore(Recv.Start(mem), chunks, chunk);
    NeverCrashes(mem, chunks + [chunk], ms);
    assert ReadIn(Recv.OnRead(r, chunk), mem, seen + chunk, chunks + [chunk]);
  }

  lemma NeverCrashes(mem: seq<byte>, chunks: seq<seq<byte>>, ms: seq<Msg>)
    requires |mem| >= Recv.CAPACITY && Recv.Legal(Recv.Start(mem), chunks)
    requires Recv.Concat(chunks) <= Pump.Flatten(ms)
    ensures !Recv.Run(Recv.Start(mem), chunks).status.Crashed?
  {
    Recv.ChunkIndependence(mem, chunks);
    PrefixParses(mem, ms, Recv.Concat(chunks));
  }

  lemma NextSlice(w: seq<byte>, i: nat, n: nat, f: seq<byte>)
    requires i + n <= |w| && w <= f
    ensures w[..i + n] == w[..i] + w[i..i + n] && w[..i + n] <= f && w[..i] <= f
  {
  }

  /** Taking the next bytes of a wire that carries some messages. */
  lemma TakeFollows(r: Recv.Recv, mem: seq<byte>, wire: seq<byte>, got: nat, n: nat, ms: seq<Msg>)
    requires CanTake(r, wire, got, n) && Follows(r, mem, wire[..got]) && wire <= Pump.Flatten(ms)
    ensures Follows(Recv.OnRead(r, wire[got..got + n]), mem, wire[..got + n])
  {
    NextSlice(wire, got, n, Pump.Flatten(ms));
    FollowsOn(r, mem, wire[..got], wire[got..got + n], ms);
  }

  lemma StartFollows(mem: seq<byte>)
    requires |mem| >= Recv.CAPACITY
    ensures Follows(Recv.Start(mem), mem, [])
  {
    var none: seq<seq<byte>> := [];
    assert ReadIn(Recv.Start(mem), mem, [], none);
  }

  // ---------------------------------------------------------------------------
  // The invariant of the whole system
  // ---------------------------------------------------------------------------

  /** An old connection carries bytes of accepted messages, and its receiver follows them. */
  ghost predicate LinkOk(l: Link, accepted: seq<Msg>) {
    && l.base <= l.end <= |accepted| && l.wire <= Pump.Flatten(accepted[l.base..l.end])
    && l.got <= |l.wire| && Follows(l.recv, l.mem, l.wire[..l.got])
  }

  ghost predicate OldOk(past: seq<Link>, accepted: seq<Msg>) {
    forall i :: 0 <= i < |past| ==> LinkOk(past[i], accepted)
  }

  /** A later connection starts where an earlier one cannot have got past, or carries nothing. */
  ghost predicate Apart(past: seq<Link>) {
    forall i, j :: 0 <= i < j < |past| ==> past[i].end <= past[j].base || past[j].wire == []
  }

  /** A failed write has stopped the pump for good, and the connection carries nothing. */
  predicate Stuck(p: Pump.Pump) { p.busy && p.write.None? && p.wire == [] }

  ghost predicate ApartNow(past: seq<Link>, p: Pump.Pump) {
    Stuck(p) || forall i :: 0 <= i < |past| ==> past[i].end <= p.base
  }

  ghost predicate Following(s: Sys) {
    s.got <= |s.pump.wire| && Follows(s.recv, s.mem, s.pump.wire[..s.got])
  }

  ghost predicate Linked(s: Sys) {
    Following(s) && OldOk(s.past, s.pump.accepted) && Apart(s.past) && ApartNow(s.past, s.pump)
  }

  ghost predicate Inv(s: Sys, k: nat) {
    Pump.Inv(s.pump, k) && (s.pump.pops < TWO64 ==> Linked(s))
  }

  /** The messages whose bytes may be on the current wire. */
  ghost function OnWire(p: Pump.Pump): seq<Msg>
    requires p.base <= p.submitted <= |p.accepted|
  {
    p.accepted[p.base..p.submitted]
  }

  lemma PartWithin(ms: seq<Msg>, a: nat, b: nat, i: nat)
    requires a <= b < |ms| && i <= |Encode(ms[b])|
    ensures Pump.Flatten(ms[a..b]) + Encode(ms[b])[..i] <= Pump.Flatten(ms[a..b + 1])
  {
    Pump.FlattenSlice(ms, a, b);
    var e := Encode(ms[b]);
    Pump.CutInside(Pump.Flatten(ms[a..b]), e, [], i);
    assert e + [] == e;
  }

  lemma WireIsPart(wire: seq<byte>, ms: seq<Msg>, a: nat, b: nat, busy: bool, i: nat, end: nat)
    requires a <= b <= |ms| && (busy ==> b < |ms| && i <= |Encode(ms[b])|)
    requires wire == Pump.Flatten(ms[a..b]) + (if busy then Encode(ms[b])[..i] else [])
    requires end == b + if busy then 1 else 0
    ensures wire <= Pump.Flatten(ms[a..end])
  {
    if busy {
      PartWithin(ms, a, b, i);
    } else {
      NothingMore(Pump.Flatten(ms[a..b]));
    }
  }

  lemma NothingMore(w: seq<byte>)
    ensures w + [] == w && w <= w
  {
  }

  lemma WireWithin(p: Pump.Pump, k: nat)
    requires Pump.Inv(p, k) && p.pops < TWO64
    ensures p.base <= p.pops <= p.submitted <= |p.accepted| && p.submitted == p.pops + (if p.busy then 1 else 0)
    ensures p.wire <= Pump.Flatten(OnWire(p))
  {
    WireIsPart(p.wire, p.accepted, p.base, p.pops, p.busy, p.sent, p.submitted);
  }

  /** What a step of the sender does to the wire and to what was accepted. */
  lemma SenderGrows(p: Pump.Pump, step: Pump.Step)
    requires !step.Connect?
    ensures var p' := Pump.Apply(p, step);
      && p.wire <= p'.wire && p.accepted <= p'.accepted && p'.base == p.base && p'.pops >= p.pops
      && (Stuck(p) ==> Stuck(p'))
  {
  }

  lemma OldStaysOk(past: seq<Link>, accepted: seq<Msg>, accepted': seq<Msg>)
    requires OldOk(past, accepted) && accepted <= accepted'
    ensures OldOk(past, accepted')
  {
    forall i | 0 <= i < |past|
      ensures LinkOk(past[i], accepted')
    {
      assert LinkOk(past[i], accepted);
      assert accepted'[past[i].base..past[i].end] == accepted[past[i].base..past[i].end];
    }
  }

  lemma LocalLinked(s: Sys, p: Pump.Pump)
    requires Linked(s) && s.pump.wire <= p.wire && s.pump.accepted <= p.accepted && p.base == s.pump.base
    requires Stuck(s.pump) ==> Stuck(p)
    ensures Linked(s.(pump := p))
  {
    assert p.wire[..s.got] == s.pump.wire[..s.got];
    OldStaysOk(s.past, s.pump.accepted, p.accepted);
  }

  lemma LocalInv(s: Sys, k: nat, step: Pump.Step)
    requires Inv(s, k)
    ensures Inv(Apply(s, Local(step)), k)
  {
    if !step.Connect? {
      Pump.StepInv(s.pump, k, step);
      SenderGrows(s.pump, step);
      if s.pump.pops < TWO64 {
        LocalLinked(s, Pump.Apply(s.pump, step));
      }
    }
  }

  lemma DeliveredInv(s: Sys, k: nat, r: Recv.Recv, got: nat)
    requires Inv(s, k) && s.pump.pops < TWO64 && got <= |s.pump.wire| && Follows(r, s.mem, s.pump.wire[..got])
    ensures Inv(s.(recv := r, got := got), k)
  {
  }

  lemma DeliverInv(s: Sys, k: nat, n: nat)
    requires Inv(s, k)
    ensures Inv(Apply(s, Deliver(n)), k)
  {
    if CanTake(s.recv, s.pump.wire, s.got, n) && s.pump.pops < TWO64 {
      WireWithin(s.pump, k);
      TakeFollows(s.recv, s.mem, s.pump.wire, s.got, n, OnWire(s.pump));
      var s' := Apply(s, Deliver(n));
      DeliveredInv(s, k, s'.recv, s'.got);
    }
  }

  lemma LinkTakes(l: Link, r: Recv.Recv, got: nat, accepted: seq<Msg>)
    requires LinkOk(l, accepted) && got <= |l.wire| && Follows(r, l.mem, l.wire[..got])
    ensures LinkOk(l.(recv := r, got := got), accepted)
  {
  }

  lemma LateFollows(l: Link, n: nat, accepted: seq<Msg>)
    requires LinkOk(l, accepted) && CanTake(l.recv, l.wire, l.got, n)
    ensures Follows(TakeLate(l, n).recv, l.mem, l.wire[..l.got + n])
  {
    TakeFollows(l.recv, l.mem, l.wire, l.got, n, accepted[l.base..l.end]);
  }

  lemma LateOk(l: Link, n: nat, accepted: seq<Msg>)
    requires LinkOk(l, accepted) && CanTake(l.recv, l.wire, l.got, n)
    ensures LinkOk(TakeLate(l, n), accepted)
  {
    LateFollows(l, n, accepted);
    var l' := TakeLate(l, n);
    LinkTakes(l, l'.recv, l'.got, accepted);
  }

  lemma LateLinked(s: Sys, i: nat, l: Link)
    requires Linked(s) && i < |s.past| && LinkOk(l, s.pump.accepted)
    requires l.base == s.past[i].base && l.end == s.past[i].end && l.wire == s.past[i].wire
    ensures Linked(s.(past := s.past[i := l]))
  {
  }

  lemma OldGrows(past: seq<Link>, l: Link, accepted: seq<Msg>)
    requires OldOk(past, accepted) && LinkOk(l, accepted)
    ensures OldOk(past + [l], accepted)
  {
    forall i | 0 <= i < |past + [l]|
      ensures LinkOk((past + [l])[i], accepted)
    {
    }
  }

  lemma ApartGrows(past: seq<Link>, l: Link)
    requires Apart(past) && (l.wire == [] || forall i :: 0 <= i < |past| ==> past[i].end <= l.base)
    ensures Apart(past + [l])
  {
  }

  /** A new connection starts no earlier than any older one can have got, unless the pump is stuck. */
  lemma ApartRestarts(past: seq<Link>, l: Link, p: Pump.Pump, p': Pump.Pump)
    requires ApartNow(past, p) && p'.base == p.pops >= p.base && p'.busy == p.busy && p'.write.None? && p'.wire == []
    requires p.write.None? && l.end == p.pops + (if p.busy then 1 else 0)
    ensures ApartNow(past + [l], p')
  {
  }

  lemma ClosedOk(s: Sys, k: nat)
    requires Pump.Inv(s.pump, k) && s.pump.pops < TWO64 && Following(s)
    ensures LinkOk(Closed(s), s.pump.accepted)
  {
    WireWithin(s.pump, k);
  }

  lemma ConnectLinked(s: Sys, k: nat, mem: seq<byte>, r: Recv.Recv, p: Pump.Pump)
    requires Pump.Inv(s.pump, k) && s.pump.pops < TWO64 && Linked(s) && s.pump.write.None?
    requires Follows(r, mem, [])
    requires p == s.pump.(connected := true, wire := [], base := s.pump.pops, sent := 0)
    ensures Linked(Sys(p, mem, r, 0, s.past + [Closed(s)]))
  {
    ClosedOk(s, k);
    WireWithin(s.pump, k);
    OldGrows(s.past, Closed(s), s.pump.accepted);
    ApartGrows(s.past, Closed(s));
    ApartRestarts(s.past, Closed(s), s.pump, p);
    assert p.wire[..0] == [];
  }

  lemma ConnectInv(s: Sys, k: nat, mem: seq<byte>)
    requires Inv(s, k)
    ensures Inv(Apply(s, Connect(mem)), k)
  {
    Pump.StepInv(s.pump, k, Pump.Step.Connect);
    if CanConnect(s, mem) && s.pump.pops < TWO64 {
      StartFollows(mem);
      ConnectLinked(s, k, mem, Recv.Start(mem), Pump.Apply(s.pump, Pump.Step.Connect));
    }
  }

  lemma LateInv(s: Sys, k: nat, i: nat, n: nat)
    requires Inv(s, k)
    ensures Inv(Apply(s, Late(i, n)), k)
  {
    if i < |s.past| && CanTake(s.past[i].recv, s.past[i].wire, s.past[i].got, n) && s.pump.pops < TWO64 {
      LateOk(s.past[i], n, s.pump.accepted);
      LateLinked(s, i, TakeLate(s.past[i], n));
    }
  }

  lemma StepInv(s: Sys, k: nat, step: Step)
    requires Inv(s, k)
    ensures Inv(Apply(s, step), k)
  {
    match step
    case Local(p) => LocalInv(s, k, p);
    case Connect(mem) => ConnectInv(s, k, mem);
    case Deliver(n) => DeliverInv(s, k, n);
    case Late(i, n) => LateInv(s, k, i, n);
  }

  lemma {:induction false} RunInv(s: Sys, k: nat, steps: seq<Step>)
    requires Inv(s, k)
    ensures Inv(Run(s, steps), k)
    decreases |steps|
  {
    if steps != [] {
      StepInv(s, k, steps[0]);
      RunInv(Apply(s, steps[0]), k, steps[1..]);
    }
  }

  lemma InitInv(s: Sys, k: nat)
    requires Init(s, k)
    ensures Inv(s, k)
  {
    Pump.InitInv(s.pump, k);
    StartFollows(s.mem);
    assert s.pump.wire[..0] == [];
  }

  // ---------------------------------------------------------------------------
  // What every run guarantees
  // ---------------------------------------------------------------------------

  /** A receiver has not failed and has decoded consecutive accepted messages, all fields included,
      starting with the first one written on its connection. */
  ghost predicate DecodedRun(r: Recv.Recv, base: nat, accepted: seq<Msg>) {
    r.status.Open? && base + |r.out| <= |accepted| && r.out == accepted[base..base + |r.out|]
  }

  /** No message is decoded on two connections: everything the earlier one has decoded, and everything it
      may still decode, comes before whatever the later one decodes. */
  ghost predicate InTurn(earlier: Link, base: nat, out: seq<Msg>) {
    out != [] ==> earlier.base + |earlier.recv.out| <= earlier.end <= base
  }

  /** All of that for the current connection and for every one before it; and when everything sent on the
      current one has arrived and no write is outstanding, everything written has been decoded. */
  ghost predicate Faithful(s: Sys) {
    var p := s.pump;
    && DecodedRun(s.recv, p.base, p.accepted)
    && (forall i :: 0 <= i < |s.past| ==> DecodedRun(s.past[i].recv, s.past[i].base, p.accepted))
    && (forall i, j :: 0 <= i < j < |s.past| ==> InTurn(s.past[i], s.past[j].base, s.past[j].recv.out))
    && (forall i :: 0 <= i < |s.past| ==> InTurn(s.past[i], p.base, s.recv.out))
    && (s.got == |p.wire| && !p.busy ==> p.base <= p.pops <= |p.accepted| && s.recv.out == p.accepted[p.base..p.pops])
  }

  lemma SliceOfSlice(r: Recv.Recv, base: nat, end: nat, accepted: seq<Msg>)
    requires base <= end <= |accepted| && r.out <= accepted[base..end] && r.status.Open?
    ensures DecodedRun(r, base, accepted) && base + |r.out| <= end
  {
    assert r.out == accepted[base..end][..|r.out|];
  }

  lemma OldDecoded(l: Link, accepted: seq<Msg>)
    requires LinkOk(l, accepted)
    ensures DecodedRun(l.recv, l.base, accepted) && l.base + |l.recv.out| <= l.end
    ensures l.wire == [] ==> l.recv.out == []
  {
    var ms := accepted[l.base..l.end];
    assert l.wire[..l.got] <= l.wire;
    DecodedPrefix(l.recv, l.mem, l.wire[..l.got], ms);
    SliceOfSlice(l.recv, l.base, l.end, accepted);
    if l.wire == [] { NothingDecoded(l.recv, l.mem); }
  }

  lemma CurrentDecoded(s: Sys, k: nat)
    requires Pump.Inv(s.pump, k) && s.pump.pops < TWO64 && Following(s)
    ensures DecodedRun(s.recv, s.pump.base, s.pump.accepted) && s.recv.need > 0
    ensures s.pump.wire == [] ==> s.recv.out == []
  {
    WireWithin(s.pump, k);
    assert s.pump.wire[..s.got] <= s.pump.wire;
    DecodedPrefix(s.recv, s.mem, s.pump.wire[..s.got], OnWire(s.pump));
    SliceOfSlice(s.recv, s.pump.base, s.pump.submitted, s.pump.accepted);
    if s.pump.wire == [] { NothingDecoded(s.recv, s.mem); }
  }

  lemma CurrentComplete(s: Sys, k: nat)
    requires Pump.Inv(s.pump, k) && s.pump.pops < TWO64 && Following(s)
    requires s.got == |s.pump.wire| && !s.pump.busy
    ensures s.pump.base <= s.pump.pops <= |s.pump.accepted|
    ensures s.recv.out == s.pump.accepted[s.pump.base..s.pump.pops]
  {
    assert s.pump.wire[..s.got] == s.pump.wire;
    DecodedAll(s.recv, s.mem, s.pump.accepted[s.pump.base..s.pump.pops]);
  }

  lemma OldFaithful(past: seq<Link>, accepted: seq<Msg>)
    requires OldOk(past, accepted) && Apart(past)
    ensures forall i :: 0 <= i < |past| ==>
      DecodedRun(past[i].recv, past[i].base, accepted) && past[i].base + |past[i].recv.out| <= past[i].end
    ensures forall i, j :: 0 <= i < j < |past| ==> InTurn(past[i], past[j].base, past[j].recv.out)
  {
    forall i | 0 <= i < |past|
      ensures DecodedRun(past[i].recv, past[i].base, accepted) && past[i].base + |past[i].recv.out| <= past[i].end
      ensures past[i].wire == [] ==> past[i].recv.out == []
    {
      OldDecoded(past[i], accepted);
    }
  }

  lemma InvIsFaithful(s: Sys, k: nat)
    requires Inv(s, k) && s.pump.pops < TWO64
    ensures Faithful(s)
  {
    CurrentDecoded(s, k);
    OldFaithful(s.past, s.pump.accepted);
    if s.got == |s.pump.wire| && !s.pump.busy {
      CurrentComplete(s, k);
    }
  }

  /** End to end, for every interleaving of producers, loop, transport and receivers, every chunking and
      every history of failures and reconnections, up to 2^64 completed writes. */
  lemma EndToEnd(s0: Sys, k: nat, steps: seq<Step>)
    requires Init(s0, k) && Run(s0, steps).pump.pops < TWO64
    ensures Faithful(Run(s0, steps))
  {
    InitInv(s0, k);
    RunInv(s0, k, steps);
    InvIsFaithful(Run(s0, steps), k);
  }

  /** While the base is 0 the decoded sequence is a prefix of the accepted one. */
  lemma FirstConnection(s0: Sys, k: nat, steps: seq<Step>)
    requires Init(s0, k) && Run(s0, steps).pump.base == 0 && Run(s0, steps).pump.pops < TWO64
    ensures Run(s0, steps).recv.out <= Run(s0, steps).pump.accepted
  {
    EndToEnd(s0, k, steps);
  }

  // ---------------------------------------------------------------------------
  // Progress
  // ---------------------------------------------------------------------------

  lemma {:induction false} RunAppend(s: Sys, a: seq<Step>, b: seq<Step>)
    ensures Run(s, a + b) == Run(Run(s, a), b)
    decreases |a|
  {
    if a == [] {
      assert a + b == b;
    } else {
      assert (a + b)[1..] == a[1..] + b;
      RunAppend(Apply(s, a[0]), a[1..], b);
    }
  }

  function Locals(ps: seq<Pump.Step>): seq<Step> {
    if ps == [] then [] else [Local(ps[0])] + Locals(ps[1..])
  }

  lemma {:induction false} LocalsRun(s: Sys, ps: seq<Pump.Step>)
    requires forall i :: 0 <= i < |ps| ==> !ps[i].Connect?
    ensures Run(s, Locals(ps)) == s.(pump := Pump.Run(s.pump, ps))
    decreases |ps|
  {
    if ps != [] {
      assert Locals(ps)[1..] == Locals(ps[1..]);
      LocalsRun(Apply(s, Local(ps[0])), ps[1..]);
    }
  }

  /** With no write outstanding the sender can put everything accepted on the wire. */
  lemma {:induction false} CanSendAll(s: Sys, k: nat) returns (steps: seq<Step>)
    requires Inv(s, k) && s.pump.connected && !s.pump.busy && |s.pump.accepted| < TWO64
    ensures var s' := Run(s, steps);
      && Inv(s', k) && !s'.pump.busy && s'.pump.pops == |s'.pump.accepted|
      && s'.pump.accepted == s.pump.accepted && s'.pump.base == s.pump.base
    decreases |s.pump.accepted| - s.pump.pops
  {
    if s.pump.pops == |s.pump.accepted| {
      steps := [];
    } else {
      var ps := [Pump.Idle(true), Pump.Send(|Encode(s.pump.accepted[s.pump.pops])|), Pump.WriteDone];
      Pump.DrainOne(s.pump, k);
      LocalsRun(s, ps);
      RunInv(s, k, Locals(ps));
      var rest := CanSendAll(Run(s, Locals(ps)), k);
      RunAppend(s, Locals(ps), rest);
      steps := Locals(ps) + rest;
    }
  }

  /** As long as bytes are left on the wire the receiver asks for some of them. */
  lemma NextRead(s: Sys, k: nat) returns (n: nat)
    requires Inv(s, k) && s.pump.pops < TWO64 && s.got != |s.pump.wire|
    ensures n > 0 && CanTake(s.recv, s.pump.wire, s.got, n)
  {
    CurrentDecoded(s, k);
    var left := |s.pump.wire| - s.got;
    n := if s.recv.need < left then s.recv.need else left;
  }

  /** The receiver can take everything that is on the wire. */
  lemma {:induction false} CanDeliverAll(s: Sys, k: nat) returns (steps: seq<Step>)
    requires Inv(s, k) && s.pump.pops < TWO64
    ensures var s' := Run(s, steps);
      Inv(s', k) && s'.pump == s.pump && s'.got == |s'.pump.wire|
    decreases |s.pump.wire| - s.got
  {
    if s.got == |s.pump.wire| {
      steps := [];
    } else {
      var n := NextRead(s, k);
      StepInv(s, k, Deliver(n));
      var rest := CanDeliverAll(Apply(s, Deliver(n)), k);
      steps := [Deliver(n)] + rest;
      assert steps[1..] == rest;
    }
  }

  /** The sender can be done with the write that is outstanding, if there is one. */
  lemma CanEndWrite(s: Sys, k: nat) returns (steps: seq<Step>)
    requires Inv(s, k) && s.pump.connected && !Pump.Halted(s.pump) && |s.pump.accepted| < TWO64
    ensures var s' := Run(s, steps);
      && Inv(s', k) && s'.pump.connected && !s'.pump.busy
      && s'.pump.accepted == s.pump.accepted && s'.pump.base == s.pump.base
  {
    if s.pump.busy {
      Pump.EndWrite(s.pump, k);
      var ps := [Pump.Send(s.pump.write.value.len - s.pump.sent), Pump.WriteDone];
      LocalsRun(s, ps);
      RunInv(s, k, Locals(ps));
      steps := Locals(ps);
    } else {
      steps := [];
    }
  }

  /** Nothing accepted is held back: from every reachable state in which the connection is up and no write
      has failed, the system can reach one where the current receiver has decoded every accepted message
      from the connection's first one on. After a failed write `SendPump.HaltedForever` says the opposite. */
  lemma Progress(s: Sys, k: nat) returns (steps: seq<Step>)
    requires Inv(s, k) && s.pump.connected && !Pump.Halted(s.pump) && |s.pump.accepted| < TWO64
    ensures var s' := Run(s, steps);
      && s'.pump.accepted == s.pump.accepted && s'.pump.base == s.pump.base <= |s.pump.accepted|
      && s'.recv.out == s.pump.accepted[s.pump.base..]
  {
    var first := CanEndWrite(s, k);
    var s0 := Run(s, first);
    var a := CanSendAll(s0, k);
    var s1 := Run(s0, a);
    var b := CanDeliverAll(s1, k);
    RunAppend(s, first, a);
    RunAppend(s, first + a, b);
    CurrentComplete(Run(s1, b), k);
    steps := first + a + b;
  }

  // ---------------------------------------------------------------------------
  // Old connections go on
  // ---------------------------------------------------------------------------

  /** A new connection leaves the receiver of the one before with what was sent to it. */
  lemma ConnectKeepsOld(s: Sys, mem: seq<byte>)
    requires CanConnect(s, mem)
    ensures var s' := Apply(s, Connect(mem)); var l := s'.past[|s.past|];
      && |s'.past| == |s.past| + 1 && s'.past[..|s.past|] == s.past
      && l.recv == s.recv && l.got == s.got && l.wire == s.pump.wire && l.base == s.pump.base
      && s'.pump.connected && s'.pump.wire == [] && s'.recv.out == [] && s'.got == 0
  {
  }

  /** Everything that was sent on an old connection can still arrive there, and is decoded as if it had come
      in one piece. */
  lemma {:induction false} CanDeliverLate(s: Sys, k: nat, i: nat) returns (steps: seq<Step>)
    requires Inv(s, k) && s.pump.pops < TWO64 && i < |s.past|
    ensures var s' := Run(s, steps);
      && Inv(s', k) && s'.pump == s.pump && s'.recv == s.recv && |s'.past| == |s.past|
      && s'.past[i].wire == s.past[i].wire && s'.past[i].got == |s.past[i].wire| && |s.past[i].mem| >= Recv.CAPACITY
      && s'.past[i].recv.out == Recv.Parse(s.past[i].mem, s.past[i].wire).out
    decreases |s.past[i].wire| - s.past[i].got
  {
    if s.past[i].got == |s.past[i].wire| {
      assert s.past[i].wire[..s.past[i].got] == s.past[i].wire;
      FollowsParse(s.past[i].recv, s.past[i].mem, s.past[i].wire);
      steps := [];
    } else {
      var n := NextLate(s.past[i], s.pump.accepted);
      StepInv(s, k, Late(i, n));
      var rest := CanDeliverLate(Apply(s, Late(i, n)), k, i);
      steps := [Late(i, n)] + rest;
      assert steps[1..] == rest;
    }
  }

  lemma NextLate(l: Link, accepted: seq<Msg>) returns (n: nat)
    requires LinkOk(l, accepted) && l.got != |l.wire|
    ensures n > 0 && CanTake(l.recv, l.wire, l.got, n)
  {
    assert l.wire[..l.got] <= l.wire;
    DecodedPrefix(l.recv, l.mem, l.wire[..l.got], accepted[l.base..l.end]);
    FollowsParse(l.recv, l.mem, l.wire[..l.got]);
    var left := |l.wire| - l.got;
    n := if l.recv.need < left then l.recv.need else left;
  }
}

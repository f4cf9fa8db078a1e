/** The receiving state machine of `SolConnServer` and `SolcomApi`: `alloc_cb` and `read_cb`. */
module Receiver {
  import opened Bytes
  import opened Codec
  import CByteArray
  import FrameParser

  const CAPACITY := CByteArray.DEFAULT_CAPACITY

  datatype Stat = RecvHead | RecvBody

  /** `Crashed` is the null dereference on an unknown command type. */
  datatype Status = Open | Closed | Crashed

  /** One connection's receive state. `mem` is the storage of `recvBuffer`; `out` what was dispatched. */
  datatype Recv = Recv(mem: seq<byte>, left: nat, right: nat, stat: Stat, need: nat, out: seq<Msg>, status: Status) {
    /** What keeps every access of the callbacks inside the storage. */
    predicate InBounds() {
      && left == 0 && |mem| >= CAPACITY && right + need <= |mem|
      && (stat.RecvHead? ==> right + need == HEAD_LEN)
    }

    /** How many bytes the next callback may bring. */
    function Room(): nat { if status.Open? then need else 0 }
  }

  function Start(mem: seq<byte>): Recv {
    Recv(mem, 0, 0, RecvHead, HEAD_LEN, [], Open)
  }

  /** `Reallocate` at the end of a head: the capacity it compares with is always the initial one. */
  function Grow(mem: seq<byte>, bodyLen: nat): (r: seq<byte>)
    requires |mem| >= CAPACITY
    ensures |r| >= CAPACITY && |r| >= bodyLen + HEAD_LEN
    ensures r[..HEAD_LEN] == mem[..HEAD_LEN]
  {
    if CAPACITY < bodyLen + HEAD_LEN then mem[..HEAD_LEN] + CByteArray.Zeros(bodyLen) else mem
  }

  /** The command that the bytes of `mem` make when a body is complete. */
  function Dispatched(mem: seq<byte>): Msg
    requires |mem| >= CAPACITY && KnownType(mem[HEAD_LEN])
  {
    var h := DecodeHead(mem[..HEAD_LEN]);
    Msg(h.reqRtnType, Truncate(h.requestID), Deserialize(mem[HEAD_LEN..]))
  }

  /** The bytes libuv has just stored, and `RightForward`. */
  function Arrive(s: Recv, chunk: seq<byte>): Recv
    requires s.InBounds() && |chunk| <= s.need
  {
    s.(mem := Overlay(s.mem, s.right, chunk), right := s.right + |chunk|, need := s.need - |chunk|)
  }

  function HeadDone(s: Recv): (r: Recv)
    requires s.InBounds() && s.right == HEAD_LEN
    ensures r.InBounds()
  {
    var len := DecodeHead(s.mem[..HEAD_LEN]).bodyLen;
    s.(mem := Grow(s.mem, len), stat := RecvBody, need := len)
  }

  function BodyDone(s: Recv): (r: Recv)
    requires s.InBounds()
    ensures r.InBounds()
  {
    if KnownType(s.mem[HEAD_LEN]) then
      Recv(s.mem, 0, 0, RecvHead, HEAD_LEN, s.out + [Dispatched(s.mem)], Open)
    else
      s.(status := Crashed)
  }

  /** `alloc_cb` followed by `read_cb`. With nothing left to ask for, libuv gets an empty buffer and
      reports an error instead of data. The storage window offered is always inside `mem`. */
  function OnRead(s: Recv, chunk: seq<byte>): (r: Recv)
    requires s.InBounds() && |chunk| <= s.Room()
    ensures r.InBounds()
  {
    if !s.status.Open? then s
    else if s.need == 0 then s.(status := Closed)
    else if |chunk| < s.need then Arrive(s, chunk)
    else if s.stat.RecvHead? then HeadDone(Arrive(s, chunk))
    else BodyDone(Arrive(s, chunk))
  }

  /** Chunks that respect, one after the other, the length `alloc_cb` offered. */
  predicate Legal(s: Recv, chunks: seq<seq<byte>>)
    requires s.InBounds()
    decreases |chunks|
  {
    chunks != [] ==> |chunks[0]| <= s.Room() && Legal(OnRead(s, chunks[0]), chunks[1..])
  }

  function Run(s: Recv, chunks: seq<seq<byte>>): (r: Recv)
    requires s.InBounds() && Legal(s, chunks)
    ensures r.InBounds()
    decreases |chunks|
  {
    if chunks == [] then s else Run(OnRead(s, chunks[0]), chunks[1..])
  }

  function Concat(chunks: seq<seq<byte>>): seq<byte> {
    if chunks == [] then [] else chunks[0] + Concat(chunks[1..])
  }

  // ---------------------------------------------------------------------------
  // The reference: a parser that sees the whole stream at once
  // ---------------------------------------------------------------------------

  function FrameLen(s: seq<byte>): nat
    requires |s| >= HEAD_LEN
  {
    HEAD_LEN + DecodeHead(s[..HEAD_LEN]).bodyLen
  }

  predicate Complete(s: seq<byte>) {
    |s| >= HEAD_LEN && HEAD_LEN < FrameLen(s) <= |s|
  }

  /** The storage after a frame, or the first part of one, has been copied to its start. */
  function Load(mem: seq<byte>, frame: seq<byte>): (r: seq<byte>)
    requires |mem| >= CAPACITY
    requires |frame| >= HEAD_LEN ==> |frame| <= FrameLen(frame)
    ensures |r| >= CAPACITY && |r| >= |frame|
    ensures |frame| >= HEAD_LEN ==> |r| >= FrameLen(frame)
    ensures r[..|frame|] == frame
  {
    if |frame| < HEAD_LEN then Overlay(mem, 0, frame)
    else
      var h := Overlay(mem, 0, frame[..HEAD_LEN]);
      Overlay(Grow(h, FrameLen(frame) - HEAD_LEN), HEAD_LEN, frame[HEAD_LEN..])
  }

  /** One complete frame off the front of the stream, and the command in it. */
  function CutFrame(mem: seq<byte>, s: seq<byte>): FrameParser.Cut<seq<byte>, Msg> {
    if |mem| < CAPACITY || !Complete(s) then FrameParser.More
    else
      PrefixFrame(s);
      var m := Load(mem, s[..FrameLen(s)]);
      if KnownType(m[HEAD_LEN]) then FrameParser.Got(Dispatched(m), m, FrameLen(s)) else FrameParser.Bad
  }

  lemma PrefixFrame(s: seq<byte>)
    requires Complete(s)
    ensures var f := s[..FrameLen(s)]; |f| >= HEAD_LEN && FrameLen(f) == |f|
  {
    assert s[..FrameLen(s)][..HEAD_LEN] == s[..HEAD_LEN];
  }

  type Parsed = FrameParser.Parsed<seq<byte>, Msg, byte>

  /** Cut complete frames off the stream, one command each; stop at an incomplete frame or at a frame
      of unknown type. */
  function Parse(mem: seq<byte>, s: seq<byte>): Parsed {
    FrameParser.Parse(CutFrame, mem, s)
  }

  function Continue(p: Parsed, more: seq<byte>): Parsed {
    FrameParser.Continue(CutFrame, p, more)
  }

  /** The callback state that corresponds to having parsed everything received so far: nothing is
      consumed from the left, and what has arrived of the current frame plus what is still asked for
      is a head, or a head and its body. */
  ghost predicate Matches(s: Recv, p: Parsed) {
    && |p.mem| >= CAPACITY && !p.crashed && s.status.Open? && s.out == p.out
    && s.left == 0 && s.right == |p.rest|
    && (|p.rest| >= HEAD_LEN ==> |p.rest| <= FrameLen(p.rest))
    && s.mem == Load(p.mem, p.rest)
    && if |p.rest| < HEAD_LEN
       then s.stat.RecvHead? && s.right + s.need == HEAD_LEN
       else s.stat.RecvBody? && s.right + s.need == FrameLen(p.rest)
  }

  /** Same commands dispatched, crashed together, and the same state while the connection is open. */
  ghost predicate Agrees(s: Recv, p: Parsed) {
    s.out == p.out && (s.status.Crashed? <==> p.crashed) && (s.status.Open? ==> Matches(s, p))
  }

  lemma CompleteExtends(a: seq<byte>, b: seq<byte>)
    requires |a| >= HEAD_LEN
    ensures |a + b| >= HEAD_LEN && FrameLen(a + b) == FrameLen(a)
    ensures Complete(a) ==> Complete(a + b) && (a + b)[..FrameLen(a)] == a[..FrameLen(a)]
  {
    assert (a + b)[..HEAD_LEN] == a[..HEAD_LEN];
  }

  lemma CutIsPrompt()
    ensures FrameParser.Prompt(CutFrame)
  {
    forall m: seq<byte>, a: seq<byte>, s: seq<byte> | CutFrame(m, a).Got? && a <= s
      ensures CutFrame(m, s) == CutFrame(m, a)
    {
      assert s == a + s[|a|..];
      CompleteExtends(a, s[|a|..]);
    }
  }

  /** A parse keeps the storage large enough and stops only where no frame is complete. */
  lemma {:induction false} ParseStops(mem: seq<byte>, s: seq<byte>)
    requires |mem| >= CAPACITY
    ensures |Parse(mem, s).mem| >= CAPACITY
    ensures !Parse(mem, s).crashed ==> !Complete(Parse(mem, s).rest)
    decreases |s|
  {
    if CutFrame(mem, s).Got? {
      var Got(o, m, n) := CutFrame(mem, s);
      ParseStops(m, s[n..]);
    }
  }

  lemma ContinueIncomplete(p: Parsed, more: seq<byte>)
    requires !Complete(p.rest + more)
    ensures Continue(p, more) == FrameParser.Parsed(p.out, p.mem, p.rest + more, false)
  {
    assert p.out + [] == p.out;
  }

  lemma LoadHead(mem: seq<byte>, head: seq<byte>)
    requires |mem| >= CAPACITY && |head| == HEAD_LEN
    ensures Load(mem, head) == Grow(Overlay(mem, 0, head), DecodeHead(head).bodyLen)
  {
    assert head[..HEAD_LEN] == head && head[HEAD_LEN..] == [];
    var g := Grow(Overlay(mem, 0, head), DecodeHead(head).bodyLen);
    assert Overlay(g, HEAD_LEN, []) == g;
  }

  lemma HeadPart(s: Recv, p: Parsed, chunk: seq<byte>)
    requires Matches(s, p) && s.InBounds() && |p.rest| < HEAD_LEN
    requires 0 < |chunk| < s.need
    ensures Agrees(OnRead(s, chunk), Continue(p, chunk))
  {
    ContinueIncomplete(p, chunk);
    OverlayTwice(p.mem, 0, p.rest, chunk);
  }

  lemma HeadEnd(s: Recv, p: Parsed, chunk: seq<byte>)
    requires Matches(s, p) && s.InBounds() && |p.rest| < HEAD_LEN
    requires 0 < |chunk| == s.need
    ensures Agrees(OnRead(s, chunk), Continue(p, chunk))
  {
    var head := p.rest + chunk;
    ContinueIncomplete(p, chunk);
    OverlayTwice(p.mem, 0, p.rest, chunk);
    LoadHead(p.mem, head);
    assert head[..HEAD_LEN] == head;
    assert Overlay(p.mem, 0, head)[..HEAD_LEN] == head;
  }

  lemma LoadMore(mem: seq<byte>, rest: seq<byte>, chunk: seq<byte>)
    requires |mem| >= CAPACITY && |rest| >= HEAD_LEN && |rest| + |chunk| <= FrameLen(rest)
    ensures FrameLen(rest + chunk) == FrameLen(rest)
    ensures Load(mem, rest + chunk) == Overlay(Load(mem, rest), |rest|, chunk)
  {
    CompleteExtends(rest, chunk);
    assert (rest + chunk)[..HEAD_LEN] == rest[..HEAD_LEN];
    assert (rest + chunk)[HEAD_LEN..] == rest[HEAD_LEN..] + chunk;
    var g := Grow(Overlay(mem, 0, rest[..HEAD_LEN]), FrameLen(rest) - HEAD_LEN);
    OverlayTwice(g, HEAD_LEN, rest[HEAD_LEN..], chunk);
  }

  lemma WholeFrame(mem: seq<byte>, f: seq<byte>)
    requires |mem| >= CAPACITY && Complete(f) && |f| == FrameLen(f)
    ensures var m := Load(mem, f);
      Parse(mem, f) == if KnownType(m[HEAD_LEN]) then FrameParser.Parsed([Dispatched(m)], m, [], false)
                       else FrameParser.Parsed([], mem, f, true)
  {
    assert f[..FrameLen(f)] == f && f[FrameLen(f)..] == [];
    var m := Load(mem, f);
    assert Parse(m, []) == FrameParser.Parsed([], m, [], false);
  }

  lemma BodyPart(s: Recv, p: Parsed, chunk: seq<byte>)
    requires Matches(s, p) && s.InBounds() && |p.rest| >= HEAD_LEN
    requires 0 < |chunk| < s.need
    ensures Agrees(OnRead(s, chunk), Continue(p, chunk))
  {
    LoadMore(p.mem, p.rest, chunk);
    ContinueIncomplete(p, chunk);
  }

  lemma BodyEnd(s: Recv, p: Parsed, chunk: seq<byte>)
    requires Matches(s, p) && s.InBounds() && |p.rest| >= HEAD_LEN
    requires 0 < |chunk| == s.need
    ensures Agrees(OnRead(s, chunk), Continue(p, chunk))
  {
    var f := p.rest + chunk;
    LoadMore(p.mem, p.rest, chunk);
    var m := Load(p.mem, f);
    WholeFrame(p.mem, f);
    assert OnRead(s, chunk) == BodyDone(Arrive(s, chunk)) && Arrive(s, chunk).mem == m;
    assert Overlay(m, 0, []) == m;
    assert p.out + [] == p.out;
  }

  /** One callback moves the machine exactly as the parser moves on the bytes it brought. */
  lemma OneRead(s: Recv, p: Parsed, chunk: seq<byte>)
    requires Matches(s, p) && s.InBounds() && |chunk| <= s.Room()
    requires !Complete(p.rest)
    ensures Agrees(OnRead(s, chunk), Continue(p, chunk))
  {
    if chunk == [] {
      assert p.rest + chunk == p.rest;
      ContinueIncomplete(p, chunk);
      assert Overlay(s.mem, s.right, []) == s.mem;
    } else if |p.rest| < HEAD_LEN && |chunk| < s.need {
      HeadPart(s, p, chunk);
    } else if |p.rest| < HEAD_LEN {
      HeadEnd(s, p, chunk);
    } else if |chunk| < s.need {
      BodyPart(s, p, chunk);
    } else {
      BodyEnd(s, p, chunk);
    }
  }

  /** What was dispatched, and whether it crashed, after any legal chunks: exactly what the one-shot
      parser says of their concatenation. */
  lemma {:induction false} RunFollowsParse(s: Recv, p: Parsed, chunks: seq<seq<byte>>)
    requires Matches(s, p) && s.InBounds() && Legal(s, chunks)
    requires !Complete(p.rest)
    ensures Agrees(Run(s, chunks), Continue(p, Concat(chunks)))
    decreases |chunks|
  {
    if chunks == [] {
      assert p.rest + [] == p.rest && p.out + [] == p.out;
    } else {
      var c, more := chunks[0], Concat(chunks[1..]);
      var s' := OnRead(s, c);
      OneRead(s, p, c);
      if s'.status.Open? {
        var p' := Continue(p, c);
        assert !Complete(p'.rest) by { ParseStops(p.mem, p.rest + c); }
        RunFollowsParse(s', p', chunks[1..]);
        assert Continue(p', more) == Continue(p, c + more) by {
          CutIsPrompt();
          FrameParser.ContinueTwice(CutFrame, p, c, more);
        }
      } else {
        Stopped(s', chunks[1..]);
        assert c + more == c;
      }
    }
  }

  lemma {:induction false} Stopped(s: Recv, chunks: seq<seq<byte>>)
    requires s.InBounds() && Legal(s, chunks) && !s.status.Open?
    ensures Run(s, chunks) == s && Concat(chunks) == []
    decreases |chunks|
  {
    if chunks != [] {
      Stopped(s, chunks[1..]);
    }
  }

  /** Chunk independence, for every stream and every way of cutting it: dispatch and failure depend on
      the bytes alone; while the connection is open, so does the whole callback state. */
  lemma ChunkIndependence(mem: seq<byte>, chunks: seq<seq<byte>>)
    requires |mem| >= CAPACITY && Legal(Start(mem), chunks)
    ensures Agrees(Run(Start(mem), chunks), Parse(mem, Concat(chunks)))
  {
    var p0 := FrameParser.Parsed([], mem, [], false);
    assert Overlay(mem, 0, []) == mem;
    RunFollowsParse(Start(mem), p0, chunks);
    var s := Concat(chunks);
    assert [] + s == s && [] + Parse(mem, s).out == Parse(mem, s).out;
  }

  /** The same one callback at a time: the state after some bytes `seen` moves to the state after
      `seen` and the chunk. */
  lemma OneMoreRead(mem: seq<byte>, seen: seq<byte>, s: Recv, chunk: seq<byte>)
    requires |mem| >= CAPACITY && s.InBounds() && |chunk| <= s.Room()
    requires Matches(s, Parse(mem, seen))
    ensures Agrees(OnRead(s, chunk), Parse(mem, seen + chunk))
  {
    var p := Parse(mem, seen);
    ParseStops(mem, seen);
    OneRead(s, p, chunk);
    assert Parse(mem, seen + chunk) == Continue(p, chunk) by {
      CutIsPrompt();
      FrameParser.ParseSplits(CutFrame, mem, seen, chunk);
    }
  }

  /** A chunk that the parser does not fail on leaves the connection open. */
  lemma ReadOn(mem: seq<byte>, seen: seq<byte>, s: Recv, chunk: seq<byte>)
    requires |mem| >= CAPACITY && s.InBounds() && 0 < |chunk| <= s.need
    requires Matches(s, Parse(mem, seen)) && !Parse(mem, seen + chunk).crashed
    ensures Matches(OnRead(s, chunk), Parse(mem, seen + chunk))
  {
    OneMoreRead(mem, seen, s, chunk);
    StaysOpen(s, chunk);
  }

  lemma StaysOpen(s: Recv, chunk: seq<byte>)
    requires s.InBounds() && s.status.Open? && |chunk| <= s.need && s.need > 0
    ensures !OnRead(s, chunk).status.Closed?
  {
  }

  lemma {:induction false} ShutStays(s: Recv, chunks: seq<seq<byte>>)
    requires s.InBounds() && Legal(s, chunks) && !s.status.Open?
    ensures Run(s, chunks) == s
    decreases |chunks|
  {
    if chunks != [] { ShutStays(s, chunks[1..]); }
  }

  /** A head that announces an empty body ends the connection at the next read: nothing is dispatched on it
      any more. */
  lemma EmptyBodyCloses(s: Recv, chunks: seq<seq<byte>>)
    requires s.InBounds() && Legal(s, chunks) && chunks != [] && s.status.Open? && s.need == 0
    ensures Run(s, chunks).status.Closed? && Run(s, chunks).out == s.out
  {
    ShutStays(OnRead(s, chunks[0]), chunks[1..]);
  }

  /** The head read again when the body is complete is the head that announced the body. */
  lemma HeadIsStable(s: Recv, p: Parsed, chunk: seq<byte>)
    requires Matches(s, p) && s.InBounds() && s.stat.RecvBody?
    requires |chunk| <= s.need
    ensures var m := Arrive(s, chunk).mem;
      DecodeHead(m[..HEAD_LEN]) == DecodeHead(p.rest[..HEAD_LEN])
  {
    var m := Arrive(s, chunk).mem;
    assert p.rest == s.mem[..|p.rest|];
    assert m[..HEAD_LEN] == s.mem[..HEAD_LEN] == p.rest[..HEAD_LEN];
  }

  // ---------------------------------------------------------------------------
  // Well-formed streams
  // ---------------------------------------------------------------------------

  /** A packet as the protocol allows it: a known type and 1 to 65535 body bytes. */
  datatype Packet = Packet(head: Head, body: seq<byte>) {
    predicate WellFormed() {
      head.Fits() && 1 <= |body| == head.bodyLen && KnownType(body[0])
    }

    function Bytes(): seq<byte>
      requires head.Fits()
    {
      EncodeHead(head) + body
    }
  }

  function Stream(ps: seq<Packet>): seq<byte>
    requires forall i :: 0 <= i < |ps| ==> ps[i].WellFormed()
  {
    if ps == [] then [] else assert ps[0].WellFormed(); ps[0].Bytes() + Stream(ps[1..])
  }

  lemma PacketFrame(p: Packet, more: seq<byte>)
    requires p.WellFormed()
    ensures var s := p.Bytes() + more;
      && Complete(s) && FrameLen(s) == |p.Bytes()| == HEAD_LEN + |p.body|
      && s[..FrameLen(s)] == p.Bytes() && s[FrameLen(s)..] == more
  {
    var s := p.Bytes() + more;
    assert s[..HEAD_LEN] == EncodeHead(p.head);
    HeadRoundTrip(p.head);
  }

  /** A concatenation of well-formed packets is dispatched completely: one command per packet, with the
      fields of its own head, of the type its body names, and with the body's own content whenever the
      body is as long as that type needs. */
  lemma {:induction false} StreamParses(mem: seq<byte>, ps: seq<Packet>)
    requires |mem| >= CAPACITY && forall i :: 0 <= i < |ps| ==> ps[i].WellFormed()
    ensures var r := Parse(mem, Stream(ps));
      && !r.crashed && r.rest == [] && |r.out| == |ps|
      && forall i :: 0 <= i < |ps| ==> DispatchOf(ps[i], r.out[i])
    decreases |ps|
  {
    if ps != [] {
      var m := ParsePacket(mem, ps[0], Stream(ps[1..]));
      StreamParses(m, ps[1..]);
    }
  }

  lemma ParsePacket(mem: seq<byte>, p: Packet, more: seq<byte>) returns (m: seq<byte>)
    requires |mem| >= CAPACITY && p.WellFormed()
    ensures |m| >= CAPACITY && KnownType(m[HEAD_LEN]) && DispatchOf(p, Dispatched(m))
    ensures var r := Parse(m, more);
      Parse(mem, p.Bytes() + more) == r.(out := [Dispatched(m)] + r.out)
  {
    PacketFrame(p, more);
    PacketLoaded(mem, p);
    m := Load(mem, p.Bytes());
  }

  ghost predicate DispatchOf(p: Packet, m: Msg)
    requires p.WellFormed()
  {
    && m.reqRtnType == p.head.reqRtnType && m.requestID == Truncate(p.head.requestID)
    && TypeOf(m.cmd) == p.body[0]
    && (|p.body| >= BodySize(p.body[0]) ==> m.cmd == Deserialize(p.body))
  }

  lemma PacketLoaded(mem: seq<byte>, p: Packet)
    requires |mem| >= CAPACITY && p.WellFormed()
    ensures Complete(p.Bytes()) && FrameLen(p.Bytes()) == |p.Bytes()|
    ensures var m := Load(mem, p.Bytes());
      KnownType(m[HEAD_LEN]) && DispatchOf(p, Dispatched(m))
  {
    var f := p.Bytes();
    assert f + [] == f;
    PacketFrame(p, []);
    var m := Load(mem, f);
    assert m[..|f|] == f;
    assert m[..HEAD_LEN] == f[..HEAD_LEN] == EncodeHead(p.head);
    HeadRoundTrip(p.head);
    assert forall i :: 0 <= i < |p.body| ==> m[HEAD_LEN + i] == f[HEAD_LEN + i] == p.body[i];
    assert forall i :: 0 <= i < |p.body| ==> m[HEAD_LEN..][i] == p.body[i];
    assert m[HEAD_LEN] == p.body[0];
    if |p.body| >= BodySize(p.body[0]) {
      SameFront(m[HEAD_LEN..], p.body);
    }
  }

  /** `Deserialize` reads no further than the size of its type. */
  lemma SameFront(a: seq<byte>, b: seq<byte>)
    requires |b| >= 1 && KnownType(b[0]) && |b| >= BodySize(b[0]) && |a| >= |b|
    requires forall i :: 0 <= i < |b| ==> a[i] == b[i]
    ensures Deserialize(a) == Deserialize(b)
  {
    if b[0] == TYPE_TEST {
      assert a[1..33] == b[1..33] && a[33..41] == b[33..41] && a[41..45] == b[41..45];
    }
  }

  /** An encoded message is a well-formed packet. */
  lemma EncodedPacket(m: Msg) returns (p: Packet)
    ensures p.WellFormed() && p.Bytes() == Encode(m)
    ensures forall d :: DispatchOf(p, d) ==> d == m
  {
    p := Packet(HeadFor(m), Serialize(m.cmd));
    RequestIdRoundTrip(m.requestID);
    CommandRoundTrip(m.cmd, []);
    assert Serialize(m.cmd) + [] == Serialize(m.cmd);
  }

  /** A proper part of an encoded message is not yet a frame. */
  lemma ParsePart(mem: seq<byte>, m: Msg, w: seq<byte>)
    requires |mem| >= CAPACITY && w < Encode(m)
    ensures Parse(mem, w) == FrameParser.Parsed([], mem, w, false)
    ensures |w| >= HEAD_LEN ==> |w| < FrameLen(w) == |Encode(m)|
  {
    if |w| >= HEAD_LEN {
      assert w[..HEAD_LEN] == Encode(m)[..HEAD_LEN] == EncodeHead(HeadFor(m));
      HeadRoundTrip(HeadFor(m));
    }
  }

  // ---------------------------------------------------------------------------
  // Reconnecting the client
  // ---------------------------------------------------------------------------

  /** `connect_cb` of the client: the buffer and the byte count start over, the receive state does not. */
  function Reconnect(s: Recv): (r: Recv)
    requires |s.mem| >= CAPACITY
    ensures r.InBounds()
  {
    s.(left := 0, right := 0, need := HEAD_LEN, out := [], status := Open)
  }

  lemma OneChunk(s: Recv, c: seq<byte>)
    requires s.InBounds() && |c| <= s.Room()
    ensures var one: seq<seq<byte>> := [c];
      Legal(s, one) && Run(s, one) == OnRead(s, c) && Concat(one) == c
  {
    var one: seq<seq<byte>> := [c];
    assert one[1..] == [];
    assert Run(OnRead(s, c), []) == OnRead(s, c);
    assert Concat(one) == c + Concat(one[1..]);
  }

  /** What an observer outside sees: the same commands, and a crash in the same cases. */
  ghost predicate SameDispatch(s: Recv, p: Parsed) {
    s.out == p.out && (s.status.Crashed? <==> p.crashed)
  }

  /** Inside a body, the first head of the new connection is taken for the end of that body: a command is
      dispatched that nobody sent, or an unknown type found in old memory ends the process. */
  lemma HeadTakenForBody(s: Recv, m: Msg)
    requires |s.mem| >= CAPACITY && s.stat.RecvBody?
    ensures var head := Encode(m)[..HEAD_LEN];
      && Legal(Reconnect(s), [head])
      && var r := Run(Reconnect(s), [head]);
         if KnownType(s.mem[HEAD_LEN])
         then r.out == [Msg(m.reqRtnType, m.requestID, Deserialize(s.mem[HEAD_LEN..]))] && r.stat.RecvHead?
         else r.status.Crashed?
    ensures var p := Parse(s.mem, Encode(m)[..HEAD_LEN]); p.out == [] && !p.crashed
  {
    var head, r := Encode(m)[..HEAD_LEN], Reconnect(s);
    OneChunk(r, head);
    var a := Arrive(r, head);
    assert a.mem[..HEAD_LEN] == head && a.mem[HEAD_LEN..] == s.mem[HEAD_LEN..];
    assert a.mem[HEAD_LEN] == s.mem[HEAD_LEN..][0];
    MessageRoundTrip(m, []);
    assert Encode(m) + [] == Encode(m);
    ParsePart(s.mem, m, head);
  }

  /** The client frames the next connection correctly, for every stream and every chunking, exactly when
      the previous one did not end inside a body. What is dispatched tells the difference already. */
  lemma ReconnectFramesIffBetweenPackets(s: Recv)
    requires |s.mem| >= CAPACITY
    ensures (forall chunks | Legal(Reconnect(s), chunks) ::
               Agrees(Run(Reconnect(s), chunks), Parse(s.mem, Concat(chunks))))
            <==> s.stat.RecvHead?
    ensures (forall chunks | Legal(Reconnect(s), chunks) ::
               SameDispatch(Run(Reconnect(s), chunks), Parse(s.mem, Concat(chunks))))
            <==> s.stat.RecvHead?
  {
    if s.stat.RecvHead? {
      assert Reconnect(s) == Start(s.mem);
      forall chunks | Legal(Reconnect(s), chunks)
        ensures Agrees(Run(Reconnect(s), chunks), Parse(s.mem, Concat(chunks)))
      {
        ChunkIndependence(s.mem, chunks);
      }
    } else {
      ReconnectGoesWrong(s);
    }
  }

  lemma ReconnectGoesWrong(s: Recv)
    requires |s.mem| >= CAPACITY && s.stat.RecvBody?
    ensures exists chunks | Legal(Reconnect(s), chunks) ::
              !SameDispatch(Run(Reconnect(s), chunks), Parse(s.mem, Concat(chunks)))
  {
    var m := Msg(0, 0, Heartbeat);
    HeadTakenForBody(s, m);
    var head := Encode(m)[..HEAD_LEN];
    OneChunk(Reconnect(s), head);
    assert !SameDispatch(Run(Reconnect(s), [head]), Parse(s.mem, Concat([head])));
  }

  lemma {:induction false} OneChunkMore(s: Recv, chunks: seq<seq<byte>>, c: seq<byte>)
    requires s.InBounds() && Legal(s, chunks) && |c| <= Run(s, chunks).Room()
    ensures Legal(s, chunks + [c]) && Run(s, chunks + [c]) == OnRead(Run(s, chunks), c)
    ensures Concat(chunks + [c]) == Concat(chunks) + c
    decreases |chunks|
  {
    if chunks == [] {
      OneChunk(s, c);
      assert chunks + [c] == [c];
    } else {
      assert (chunks + [c])[1..] == chunks[1..] + [c];
      OneChunkMore(OnRead(s, chunks[0]), chunks[1..], c);
    }
  }

  /** A run whose bytes so far are `seen` takes the next chunk without failing, if the parser does. */
  lemma Extend(mem: seq<byte>, chunks: seq<seq<byte>>, s: Recv, seen: seq<byte>, c: seq<byte>)
    requires |mem| >= CAPACITY && Legal(Start(mem), chunks) && Concat(chunks) == seen && s == Run(Start(mem), chunks)
    requires Matches(s, Parse(mem, seen)) && 0 < |c| <= s.need && !Parse(mem, seen + c).crashed
    ensures Legal(Start(mem), chunks + [c]) && Concat(chunks + [c]) == seen + c
    ensures Run(Start(mem), chunks + [c]) == OnRead(s, c) && Matches(OnRead(s, c), Parse(mem, seen + c))
  {
    OneChunkMore(Start(mem), chunks, c);
    ReadOn(mem, seen, s, c);
  }

  /** The bytes behind a head are not touched while the next head arrives. */
  lemma BodyBytesStay(mem: seq<byte>, m: Msg)
    requires |mem| >= CAPACITY
    ensures var head := Encode(m)[..HEAD_LEN];
      FrameLen(head) <= HEAD_LEN + 45 && Load(mem, head)[HEAD_LEN..] == mem[HEAD_LEN..]
  {
    var head := Encode(m)[..HEAD_LEN];
    ParsePart(mem, m, head);
    LoadHead(mem, head);
    assert head[..HEAD_LEN] == head;
  }

  lemma ParseWhole(mem: seq<byte>, m: Msg)
    requires |mem| >= CAPACITY
    ensures var r := Parse(mem, Encode(m)); !r.crashed && r.out == [m] && r.rest == []
  {
    var p := EncodedPacket(m);
    var mem' := ParsePacket(mem, p, []);
    assert Parse(mem', []) == FrameParser.Parsed([], mem', [], false);
    assert Encode(m) + [] == Encode(m);
  }

  lemma ParseThenHead(mem: seq<byte>, m0: Msg, m1: Msg) returns (mem': seq<byte>)
    requires |mem| >= CAPACITY
    ensures var head := Encode(m1)[..HEAD_LEN];
      && Parse(mem, Encode(m0) + head) == FrameParser.Parsed([m0], mem', head, false)
      && |mem'| >= CAPACITY && KnownType(mem'[HEAD_LEN]) && Deserialize(mem'[HEAD_LEN..]) == m0.cmd
  {
    var head := Encode(m1)[..HEAD_LEN];
    var p := EncodedPacket(m0);
    mem' := ParsePacket(mem, p, head);
    ParsePart(mem', m1, head);
  }

  lemma FirstChunk(mem: seq<byte>, c: seq<byte>)
    requires |mem| >= CAPACITY && 0 < |c| <= HEAD_LEN && !Parse(mem, c).crashed
    ensures Legal(Start(mem), [c]) && Concat([c]) == c && Run(Start(mem), [c]) == OnRead(Start(mem), c)
    ensures Matches(OnRead(Start(mem), c), Parse(mem, c))
  {
    StartMatches(mem);
    OneChunk(Start(mem), c);
    assert [] + c == c;
    ReadOn(mem, [], Start(mem), c);
  }

  /** A connection that delivers one message whole and of a second one the head only: a reachable state
      inside a body, with the first message's command still in the buffer. */
  lemma CutInsideBody(mem: seq<byte>, m0: Msg, m1: Msg) returns (chunks: seq<seq<byte>>)
    requires |mem| >= CAPACITY
    ensures Legal(Start(mem), chunks) && Concat(chunks) == Encode(m0) + Encode(m1)[..HEAD_LEN]
    ensures var s := Run(Start(mem), chunks);
      s.out == [m0] && s.stat.RecvBody? && KnownType(s.mem[HEAD_LEN]) && Deserialize(s.mem[HEAD_LEN..]) == m0.cmd
  {
    var e, head := Encode(m0), Encode(m1)[..HEAD_LEN];
    var h, b := e[..HEAD_LEN], e[HEAD_LEN..];
    assert h + b == e;
    ParsePart(mem, m0, h);
    ParseWhole(mem, m0);
    var m := ParseThenHead(mem, m0, m1);
    BodyBytesStay(m, m1);
    var s := Start(mem);
    FirstChunk(mem, h);
    chunks, s := [h], OnRead(s, h);
    Extend(mem, chunks, s, h, b);
    chunks, s := chunks + [b], OnRead(s, b);
    Extend(mem, chunks, s, e, head);
    chunks, s := chunks + [head], OnRead(s, head);
    assert s.mem[HEAD_LEN] == s.mem[HEAD_LEN..][0];
  }

  lemma StartMatches(mem: seq<byte>)
    requires |mem| >= CAPACITY
    ensures Matches(Start(mem), Parse(mem, []))
  {
    assert Overlay(mem, 0, []) == mem;
  }

  /** What the client's `OnRecvMsg` gets to see of the messages dispatched. */
  function Commands(out: seq<Msg>): seq<Command> { seq(|out|, i requires 0 <= i < |out| => out[i].cmd) }

  /** The failure at work: the connection drops inside a body, the client reconnects, and the first head it
      receives makes it hand over a command, the one that the old connection had already delivered. */
  lemma ReconnectReplaysOldCommand(mem: seq<byte>, m0: Msg, m1: Msg, m2: Msg) returns (chunks: seq<seq<byte>>)
    requires |mem| >= CAPACITY
    ensures Legal(Start(mem), chunks) && Concat(chunks) == Encode(m0) + Encode(m1)[..HEAD_LEN]
    ensures var s, head := Run(Start(mem), chunks), Encode(m2)[..HEAD_LEN];
      && Commands(s.out) == [m0.cmd]
      && Legal(Reconnect(s), [head])
      && Commands(Run(Reconnect(s), [head]).out) == [m0.cmd]
      && Commands(Parse(s.mem, head).out) == []
  {
    chunks := CutInsideBody(mem, m0, m1);
    HeadTakenForBody(Run(Start(mem), chunks), m2);
    assert Run(Start(mem), chunks).out == [m0];
  }

  // ---------------------------------------------------------------------------
  // The connection object
  // ---------------------------------------------------------------------------

  /** The fields of `SolConnClient` that `alloc_cb` and `read_cb` use. */
  class Connection {
    const recvBuffer: CByteArray.CByteArray
    var recvStat: Stat
    var nNeedRead: nat
    var dispatched: seq<Msg>
    var status: Status

    ghost function State(): Recv
      reads this, recvBuffer, recvBuffer.pCharArr
    {
      Recv(recvBuffer.Bytes(), recvBuffer.nLeft, recvBuffer.nRight, recvStat, nNeedRead, dispatched, status)
    }

    ghost predicate Valid()
      reads this, recvBuffer, recvBuffer.pCharArr
    {
      recvBuffer.Valid() && recvBuffer.nCapacity == CAPACITY && State().InBounds()
    }

    constructor ()
      ensures Valid() && fresh(recvBuffer) && fresh(recvBuffer.pCharArr)
      ensures State() == Start(recvBuffer.Bytes())
    {
      recvBuffer := new CByteArray.CByteArray(0);
      recvStat, nNeedRead, dispatched, status := RecvHead, HEAD_LEN, [], Open;
    }

    /** The window of storage offered to libuv; it lies inside the actual block. */
    method AllocCb() returns (base: nat, len: nat)
      requires Valid()
      ensures base + len <= recvBuffer.pCharArr.Length
      ensures base == State().right && len == State().need
    {
      base, len := recvBuffer.nRight, nNeedRead;
    }

    /** libuv has filled the first `|chunk|` bytes of the window and calls back. */
    method ReadCb(chunk: seq<byte>)
      requires Valid() && status.Open? && |chunk| <= nNeedRead
      modifies this, recvBuffer, recvBuffer.pCharArr
      ensures Valid() && (recvBuffer.pCharArr == old(recvBuffer.pCharArr) || fresh(recvBuffer.pCharArr))
      ensures State() == OnRead(old(State()), chunk)
    {
      if nNeedRead == 0 {
        status := Closed;
        return;
      }
      recvBuffer.Append(chunk);
      nNeedRead := nNeedRead - |chunk|;
      assert State() == Arrive(old(State()), chunk);
      if nNeedRead == 0 {
        if recvStat.RecvHead? {
          OnHead();
        } else {
          OnBody();
        }
      }
    }

    /** The branch for a complete head. */
    method OnHead()
      requires Valid() && recvBuffer.nRight == HEAD_LEN
      modifies this, recvBuffer
      ensures Valid() && (recvBuffer.pCharArr == old(recvBuffer.pCharArr) || fresh(recvBuffer.pCharArr))
      ensures State() == HeadDone(old(State()))
    {
      var raw := recvBuffer.HeadIntercept(HEAD_LEN);
      var head := DecodeHead(raw);
      assert raw == recvBuffer.Bytes()[..HEAD_LEN];
      nNeedRead := head.bodyLen;
      recvStat := RecvBody;
      recvBuffer.nLeft := recvBuffer.nLeft - HEAD_LEN;
      if recvBuffer.nCapacity < nNeedRead + HEAD_LEN {
        recvBuffer.Reallocate(nNeedRead + HEAD_LEN);
        assert CByteArray.Zeros(0) + raw == raw;
      }
    }

    /** The branch for a complete body. A failing dereference ends the process; the label `Crashed` is
        all that is kept of it. */
    method OnBody()
      requires Valid() && status.Open?
      modifies this, recvBuffer
      ensures Valid() && recvBuffer.pCharArr == old(recvBuffer.pCharArr)
      ensures State() == BodyDone(old(State()))
    {
      var raw := recvBuffer.HeadIntercept(HEAD_LEN);
      var head := DecodeHead(raw);
      assert raw == recvBuffer.Bytes()[..HEAD_LEN];
      var t := recvBuffer.pCharArr[recvBuffer.nLeft];
      if KnownType(t) {
        var cmd := CByteArray.DeserializeFrom(recvBuffer, t);
        dispatched := dispatched + [Msg(head.reqRtnType, Truncate(head.requestID), cmd)];
        recvBuffer.Init();
        recvStat, nNeedRead := RecvHead, HEAD_LEN;
      } else {
        recvBuffer.nLeft := 0;
        status := Crashed;
      }
    }
  }
}

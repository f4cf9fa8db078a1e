/** Multipart requests: the encoders of `DispatcherManager`, and what a request that arrives whole means to
    `DispatcherService`. How the poll loop reads them is in `Polling`. */
module Requests {
  import opened Bytes
  import opened Options
  import opened Sessions

  type Frame = seq<byte>

  /** A message as ZeroMQ delivers it: at least one frame. */
  type Multipart = m: seq<Frame> | m != [] witness [[]]

  const T_QUERY := 4
  const T_INSERT := 5
  const T_DELETE := 6
  const T_DELBYCOL := 7
  const T_UPDATE := 8

  datatype ColumnFilter = ColumnFilter(name: Frame, val: Frame)

  /** What a request carries besides the identity. Objects travel as the bytes of their structs. */
  datatype Request =
    | Login(reqid: int32)
    | Logout(reqid: int32)
    | KeepAlive
    | ByColumn(cmd: int32, reqid: int32, eletype: int32, filters: seq<ColumnFilter>)
    | ByObjects(cmd: int32, reqid: int32, eletype: int32, objects: seq<Frame>)
    | Skipped(cmd: int32)

  predicate IsByColumn(cmd: int) { cmd == T_QUERY || cmd == T_DELBYCOL }
  predicate IsByObjects(cmd: int) { cmd == T_INSERT || cmd == T_DELETE || cmd == T_UPDATE }

  /** `sizeof` of the five element structs. */
  function ElementSize(eletype: int): nat {
    if eletype == 0 then 64 + 64
    else if eletype == 1 then 64 + 64 + 4
    else if eletype == 2 then 64 + 128 + 128 + 256 + 64
    else if eletype == 3 then 64 + 64 + 64 + 64 + 256 + 64 + 64
    else 64 + 64 + 64 + 64
  }

  predicate KnownElement(eletype: int) { 0 <= eletype <= 4 }

  /** The requests with a meaning: the tables are the five the server knows, the objects are whole. */
  predicate Encodable(r: Request) {
    match r
    case Login(_) => true
    case Logout(_) => true
    case KeepAlive => true
    case ByColumn(cmd, _, eletype, _) => IsByColumn(cmd) && KnownElement(eletype)
    case ByObjects(cmd, _, eletype, objects) =>
      && IsByObjects(cmd) && KnownElement(eletype) && objects != []
      && forall i :: 0 <= i < |objects| ==> |objects[i]| == ElementSize(eletype)
    case Skipped(_) => false
  }

  function Cmd(r: Request): int32 {
    match r
    case Login(_) => T_LOGIN
    case Logout(_) => T_LOGOUT
    case KeepAlive => T_KEEPALIVE
    case ByColumn(cmd, _, _, _) => cmd
    case ByObjects(cmd, _, _, _) => cmd
    case Skipped(cmd) => cmd
  }

  function FilterFrames(fs: seq<ColumnFilter>): seq<Frame> {
    if fs == [] then [] else [fs[0].name, fs[0].val] + FilterFrames(fs[1..])
  }

  /** The frames after the command. */
  function Rest(r: Request): seq<Frame> {
    match r
    case Login(reqid) => [Int32Bytes(reqid)]
    case Logout(reqid) => [Int32Bytes(reqid)]
    case KeepAlive => []
    case ByColumn(_, reqid, eletype, filters) => [Int32Bytes(reqid), Int32Bytes(eletype)] + FilterFrames(filters)
    case ByObjects(_, reqid, eletype, objects) => [Int32Bytes(reqid), Int32Bytes(eletype)] + objects
    case Skipped(_) => []
  }

  /** A whole request as it is to arrive. */
  function Frames(id: Id, r: Request): (fs: seq<Frame>)
    ensures |fs| >= 2
  {
    [id, Int32Bytes(Cmd(r))] + Rest(r)
  }

  // ---------------------------------------------------------------------------
  // Sending
  // ---------------------------------------------------------------------------

  /** A part handed to `zmq_send`; `last` is the absence of the send-more flag. */
  datatype Part = Part(data: Frame, last: bool)

  /** The parts of one message: only the final one is marked last. */
  function Flagged(fs: seq<Frame>): (ps: seq<Part>)
    ensures |ps| == |fs|
  {
    seq(|fs|, i requires 0 <= i < |fs| => Part(fs[i], i == |fs| - 1))
  }

  /** What ZeroMQ makes of a stream of parts: complete messages, and the parts of one not yet complete. */
  function Assemble(ps: seq<Part>, open: seq<Frame>): (seq<Multipart>, seq<Frame>) {
    if ps == [] then ([], open)
    else if ps[0].last then
      var (done, rest) := Assemble(ps[1..], []);
      ([open + [ps[0].data]] + done, rest)
    else Assemble(ps[1..], open + [ps[0].data])
  }

  lemma {:induction false} AssembleOne(fs: seq<Frame>, open: seq<Frame>, more: seq<Part>)
    requires fs != []
    ensures Assemble(Flagged(fs) + more, open) ==
      var (done, rest) := Assemble(more, []); ([open + fs] + done, rest)
    decreases |fs|
  {
    var ps := Flagged(fs) + more;
    assert ps[0] == Part(fs[0], |fs| == 1);
    if |fs| == 1 {
      assert ps[1..] == more && fs == [fs[0]];
    } else {
      assert ps[1..] == Flagged(fs[1..]) + more;
      AssembleOne(fs[1..], open + [fs[0]], more);
      assert open + [fs[0]] + fs[1..] == open + fs by { assert fs == [fs[0]] + fs[1..]; }
    }
  }

  function AllParts(messages: seq<Multipart>): seq<Part> {
    if messages == [] then [] else Flagged(messages[0]) + AllParts(messages[1..])
  }

  /** Messages sent one after the other arrive as the same messages. */
  lemma {:induction false} StreamAssembles(messages: seq<Multipart>)
    ensures Assemble(AllParts(messages), []) == (messages, [])
    decreases |messages|
  {
    if messages != [] {
      StreamAssembles(messages[1..]);
      AssembleOne(messages[0], [], AllParts(messages[1..]));
      assert [] + messages[0] == messages[0];
      assert [messages[0]] + messages[1..] == messages;
    }
  }

  lemma {:induction false} AllPartsSnoc(messages: seq<Multipart>, m: Multipart)
    ensures AllParts(messages + [m]) == AllParts(messages) + Flagged(m)
    decreases |messages|
  {
    if messages == [] {
      assert messages + [m] == [m];
      AllPartsOne(m);
    } else {
      assert (messages + [m])[1..] == messages[1..] + [m];
      AllPartsSnoc(messages[1..], m);
    }
  }

  lemma AllPartsOne(m: Multipart)
    ensures AllParts([m]) == Flagged(m)
  {
    var one := [m];
    assert one[1..] == [];
    assert AllParts(one) == Flagged(m) + AllParts(one[1..]);
  }

  /** A request handed to an encoder, with the identity it is sent under. */
  datatype Sent = Sent(id: Id, request: Request)

  function Wires(log: seq<Sent>): (ms: seq<Multipart>)
    ensures |ms| == |log|
  {
    seq(|log|, i requires 0 <= i < |log| => Frames(log[i].id, log[i].request))
  }

  datatype Code = Success | NoConnect | BadParameter

  lemma {:induction false} FilterFramesAppend(a: seq<ColumnFilter>, f: ColumnFilter)
    ensures FilterFrames(a + [f]) == FilterFrames(a) + [f.name, f.val]
    decreases |a|
  {
    if a == [] {
      assert a + [f] == [f] && [f][1..] == [];
      assert FilterFrames([]) == [];
    } else {
      assert (a + [f])[1..] == a[1..] + [f];
      FilterFramesAppend(a[1..], f);
    }
  }

  class DispatcherManager {
    var m_strIdentity: Id
    var connected: bool
    /** Every part sent so far on the inproc sockets. */
    var sent: seq<Part>
    /** The requests that were accepted so far. */
    ghost var log: seq<Sent>

    /** What has been sent is the messages of the accepted requests and nothing else. */
    ghost predicate Valid()
      reads this
    {
      sent == AllParts(Wires(log))
    }

    constructor ()
      ensures Valid() && m_strIdentity == [] && !connected && sent == [] && log == []
    {
      m_strIdentity, connected, sent, log := [], false, [], [];
    }

    method Send(data: Frame, last: bool)
      modifies this`sent
      ensures sent == old(sent) + [Part(data, last)]
    {
      sent := sent + [Part(data, last)];
    }

    ghost method Record(before: seq<Part>, r: Request)
      requires before == AllParts(Wires(log)) && sent == before + Flagged(Frames(m_strIdentity, r))
      modifies this`log
      ensures Valid() && log == old(log) + [Sent(m_strIdentity, r)]
    {
      var m: Multipart := Frames(m_strIdentity, r);
      AllPartsSnoc(Wires(log), m);
      assert Wires(log + [Sent(m_strIdentity, r)]) == Wires(log) + [m];
      log := log + [Sent(m_strIdentity, r)];
    }

    method ReqLogin(id: Id, reqid: int32) returns (code: Code)
      requires Valid()
      modifies this
      ensures Valid() && connected == old(connected)
      ensures code == if id == [] then BadParameter else if !connected then NoConnect else Success
      ensures code.Success? ==> m_strIdentity == id && sent == old(sent) + Flagged(Frames(id, Login(reqid)))
      ensures code.Success? ==> log == old(log) + [Sent(id, Login(reqid))]
      ensures !code.Success? ==> m_strIdentity == old(m_strIdentity) && sent == old(sent) && log == old(log)
    {
      if id == [] { return BadParameter; }
      if !connected { return NoConnect; }
      m_strIdentity := id;
      Send(id, false);
      Send(Int32Bytes(T_LOGIN), false);
      Send(Int32Bytes(reqid), true);
      Record(old(sent), Login(reqid));
      code := Success;
    }

    method ReqLogout(reqid: int32) returns (code: Code)
      requires Valid()
      modifies this`sent, this`log
      ensures Valid() && code == if connected then Success else NoConnect
      ensures sent == if code.Success? then old(sent) + Flagged(Frames(m_strIdentity, Logout(reqid))) else old(sent)
      ensures log == if code.Success? then old(log) + [Sent(m_strIdentity, Logout(reqid))] else old(log)
    {
      if !connected { return NoConnect; }
      Send(m_strIdentity, false);
      Send(Int32Bytes(T_LOGOUT), false);
      Send(Int32Bytes(reqid), true);
      Record(old(sent), Logout(reqid));
      code := Success;
    }

    /** The answer to a keep-alive push. */
    method AnswerKeepAlive()
      requires Valid()
      modifies this`sent, this`log
      ensures Valid() && sent == old(sent) + Flagged(Frames(m_strIdentity, KeepAlive))
      ensures log == old(log) + [Sent(m_strIdentity, KeepAlive)]
    {
      Send(m_strIdentity, false);
      Send(Int32Bytes(T_KEEPALIVE), true);
      Record(old(sent), KeepAlive);
    }

    /** Identity, command, request id and element type, with which three encoders start. */
    method SendHead(cmd: int32, reqid: int32, eletype: int32, last: bool) returns (ghost parts: seq<Part>)
      modifies this`sent
      ensures sent == old(sent) + parts && Marked(parts, Head(m_strIdentity, cmd, reqid, eletype), last)
    {
      Send(m_strIdentity, false);
      Send(Int32Bytes(cmd), false);
      Send(Int32Bytes(reqid), false);
      Send(Int32Bytes(eletype), last);
      parts := [Part(m_strIdentity, false), Part(Int32Bytes(cmd), false), Part(Int32Bytes(reqid), false),
                Part(Int32Bytes(eletype), last)];
    }

    /** `ReqQryByColumnFilter` and `ReqDelByColumnFilter`, which differ in the command only. */
    method ReqByColumnFilter(filters: seq<ColumnFilter>, eletype: int32, reqid: int32, cmd: int32) returns (code: Code)
      requires Valid() && IsByColumn(cmd)
      modifies this`sent, this`log
      ensures Valid() && code == if connected then Success else NoConnect
      ensures var r := ByColumn(cmd, reqid, eletype, filters);
        && sent == (if code.Success? then old(sent) + Flagged(Frames(m_strIdentity, r)) else old(sent))
        && log == (if code.Success? then old(log) + [Sent(m_strIdentity, r)] else old(log))
    {
      if !connected { return NoConnect; }
      ghost var parts := SendHead(cmd, reqid, eletype, |filters| == 0);
      ghost var head := Head(m_strIdentity, cmd, reqid, eletype);
      var n := |filters|;
      for i := 0 to n
        invariant sent == old(sent) + parts && log == old(log)
        invariant Marked(parts, head + FilterFrames(filters[..i]), i == n)
      {
        MarkFilter(parts, head, filters, i);
        Send(filters[i].name, false);
        Send(filters[i].val, i == n - 1);
        ghost var two := [Part(filters[i].name, false), Part(filters[i].val, i == n - 1)];
        assert sent == old(sent) + (parts + two);
        parts := parts + two;
      }
      FiltersMarked(parts, m_strIdentity, ByColumn(cmd, reqid, eletype, filters));
      Record(old(sent), ByColumn(cmd, reqid, eletype, filters));
      code := Success;
    }

    /** `ReqInsUpdDelByEletype`. */
    method ReqByObjects(objects: seq<Frame>, eletype: int32, reqid: int32, cmd: int32) returns (code: Code)
      requires Valid()
      modifies this`sent, this`log
      ensures Valid() && code == if objects == [] then BadParameter else if connected then Success else NoConnect
      ensures var r := ByObjects(cmd, reqid, eletype, objects);
        && sent == (if code.Success? then old(sent) + Flagged(Frames(m_strIdentity, r)) else old(sent))
        && log == (if code.Success? then old(log) + [Sent(m_strIdentity, r)] else old(log))
    {
      if objects == [] { return BadParameter; }
      if !connected { return NoConnect; }
      ghost var parts := SendHead(cmd, reqid, eletype, false);
      ghost var head := Head(m_strIdentity, cmd, reqid, eletype);
      var n := |objects|;
      for i := 0 to n
        invariant sent == old(sent) + parts && log == old(log)
        invariant Marked(parts, head + objects[..i], i == n)
      {
        Send(objects[i], i == n - 1);
        assert sent == old(sent) + (parts + [Part(objects[i], i == n - 1)]);
        parts := parts + [Part(objects[i], i == n - 1)];
        assert head + objects[..i + 1] == (head + objects[..i]) + [objects[i]];
      }
      assert objects[..n] == objects;
      MarkedIsFlagged(parts, head + objects);
      HeadFrames(m_strIdentity, ByObjects(cmd, reqid, eletype, objects), objects);
      Record(old(sent), ByObjects(cmd, reqid, eletype, objects));
      code := Success;
    }
  }

  function Head(id: Id, cmd: int32, reqid: int32, eletype: int32): seq<Frame> {
    [id, Int32Bytes(cmd), Int32Bytes(reqid), Int32Bytes(eletype)]
  }

  lemma HeadFrames(id: Id, r: Request, body: seq<Frame>)
    requires (r.ByColumn? && body == FilterFrames(r.filters)) || (r.ByObjects? && body == r.objects)
    ensures Head(id, r.cmd, r.reqid, r.eletype) + body == Frames(id, r)
  {
  }

  /** Parts carrying `fs`, none marked last except, when `complete`, the final one. */
  ghost predicate Marked(ps: seq<Part>, fs: seq<Frame>, complete: bool) {
    |ps| == |fs| && forall k :: 0 <= k < |ps| ==> ps[k] == Part(fs[k], complete && k == |ps| - 1)
  }

  lemma MarkFilter(ps: seq<Part>, head: seq<Frame>, fs: seq<ColumnFilter>, i: nat)
    requires i < |fs| && Marked(ps, head + FilterFrames(fs[..i]), false)
    ensures Marked(ps + [Part(fs[i].name, false), Part(fs[i].val, i == |fs| - 1)],
                   head + FilterFrames(fs[..i + 1]), i + 1 == |fs|)
  {
    FilterFramesAppend(fs[..i], fs[i]);
    assert fs[..i + 1] == fs[..i] + [fs[i]];
    var had := head + FilterFrames(fs[..i]);
    assert head + FilterFrames(fs[..i + 1]) == had + [fs[i].name, fs[i].val];
  }

  lemma FiltersMarked(ps: seq<Part>, id: Id, r: Request)
    requires r.ByColumn?
    requires Marked(ps, Head(id, r.cmd, r.reqid, r.eletype) + FilterFrames(r.filters[..|r.filters|]), true)
    ensures ps == Flagged(Frames(id, r))
  {
    assert r.filters[..|r.filters|] == r.filters;
    HeadFrames(id, r, FilterFrames(r.filters));
    MarkedIsFlagged(ps, Frames(id, r));
  }

  lemma MarkedIsFlagged(ps: seq<Part>, fs: seq<Frame>)
    requires Marked(ps, fs, true)
    ensures ps == Flagged(fs)
  {
  }

  // ---------------------------------------------------------------------------
  // The meaning of a whole message
  // ---------------------------------------------------------------------------

  /** What a turn of the poll loop that comes to its end has done: passed a request on to its handler, or
      answered with an error. */
  datatype Outcome =
    | Served(router: Router, id: Id, request: Request)
    | Refused(router: Router, id: Id, cmd: int32, reqid: int32, verdict: Verdict)
  {
    function Event(time: int): Event { Message(router, id, if Served? then Cmd(request) else cmd, time) }
  }

  function ToFilters(fs: seq<Frame>): seq<ColumnFilter>
    requires |fs| % 2 == 0
  {
    if fs == [] then [] else [ColumnFilter(fs[0], fs[1])] + ToFilters(fs[2..])
  }

  function ToObjects(fs: seq<Frame>, size: nat): seq<Frame>
    requires forall i :: 0 <= i < |fs| ==> |fs[i]| >= size
  {
    seq(|fs|, i requires 0 <= i < |fs| => fs[i][..size])
  }

  /** The frames after the command that a handler can read without leaving the message, without failing a
      size assertion or copying past a frame, and without looking up a table that does not exist. */
  predicate Readable(cmd: int, rest: seq<Frame>) {
    if cmd == T_LOGIN || cmd == T_LOGOUT then |rest| >= 1 && |rest[0]| == 4
    else if IsByColumn(cmd) then |rest| >= 2 && |rest[0]| == 4 && |rest[1]| == 4 && |rest| % 2 == 0
                            && KnownElement(Int32From(rest[1]))
    else if IsByObjects(cmd) then
      && |rest| >= 2 && |rest[0]| == 4 && |rest[1]| == 4
      && (KnownElement(Int32From(rest[1])) ==>
            forall i :: 2 <= i < |rest| ==> |rest[i]| >= ElementSize(Int32From(rest[1])))
    else true
  }

  function Decode(cmd: int32, rest: seq<Frame>): Request
    requires Readable(cmd, rest)
  {
    if cmd == T_LOGIN then Login(Int32From(rest[0]))
    else if cmd == T_LOGOUT then Logout(Int32From(rest[0]))
    else if cmd == T_KEEPALIVE then KeepAlive
    else if IsByColumn(cmd) then ByColumn(cmd, Int32From(rest[0]), Int32From(rest[1]), ToFilters(rest[2..]))
    else if IsByObjects(cmd) && KnownElement(Int32From(rest[1])) then
      ByObjects(cmd, Int32From(rest[0]), Int32From(rest[1]), ToObjects(rest[2..], ElementSize(Int32From(rest[1]))))
    else Skipped(cmd)
  }

  /** A refused message is answered with its request id if it has one. The identity check copies the four
      bytes unchecked, the other two assert on the size. */
  predicate RefusalReadable(v: Verdict, rest: seq<Frame>) {
    rest != [] ==> if v.IdentifyError? then |rest[0]| >= 4 else |rest[0]| == 4
  }

  /** What a message amounts to, if it can be dealt with from its own frames. */
  function Serve(s: Service, message: seq<Frame>, time: int): Option<Outcome> {
    if |message| < 3 || |message[2]| < 4 then None
    else
      var cmd, rest := Int32From(message[2][..4]), message[3..];
      var v := Check(s, Message(message[0], message[1], cmd, time));
      if v.Reached? then
        if Readable(cmd, rest) then Some(Served(message[0], message[1], Decode(cmd, rest))) else None
      else if RefusalReadable(v, rest) then
        Some(Refused(message[0], message[1], cmd, if rest == [] then 0 else Int32From(rest[0][..4]), v))
      else None
  }

  // ---------------------------------------------------------------------------
  // Round trip
  // ---------------------------------------------------------------------------

  lemma {:induction false} FiltersRoundTrip(fs: seq<ColumnFilter>)
    ensures |FilterFrames(fs)| % 2 == 0 && ToFilters(FilterFrames(fs)) == fs
  {
    if fs != [] {
      FiltersRoundTrip(fs[1..]);
      assert FilterFrames(fs)[2..] == FilterFrames(fs[1..]);
      assert [fs[0]] + fs[1..] == fs;
    }
  }

  lemma ColumnRoundTrip(r: Request)
    requires Encodable(r) && r.ByColumn?
    ensures Readable(r.cmd, Rest(r)) && Decode(r.cmd, Rest(r)) == r
  {
    Int32RoundTrip(r.reqid);
    Int32RoundTrip(r.eletype);
    FiltersRoundTrip(r.filters);
    assert Rest(r)[2..] == FilterFrames(r.filters);
  }

  lemma ObjectsWhole(objects: seq<Frame>, size: nat)
    requires forall i :: 0 <= i < |objects| ==> |objects[i]| == size
    ensures ToObjects(objects, size) == objects
  {
    assert forall i :: 0 <= i < |objects| ==> objects[i][..size] == objects[i];
  }

  lemma ObjectsRoundTrip(r: Request)
    requires Encodable(r) && r.ByObjects?
    ensures Readable(r.cmd, Rest(r)) && Decode(r.cmd, Rest(r)) == r
  {
    Int32RoundTrip(r.reqid);
    Int32RoundTrip(r.eletype);
    assert Rest(r)[2..] == r.objects;
    assert forall i :: 2 <= i < |Rest(r)| ==> Rest(r)[i] == r.objects[i - 2];
    ObjectsWhole(r.objects, ElementSize(r.eletype));
  }

  lemma RestRoundTrip(r: Request)
    requires Encodable(r)
    ensures Readable(Cmd(r), Rest(r)) && Decode(Cmd(r), Rest(r)) == r
  {
    match r
    case Login(reqid) => Int32RoundTrip(reqid);
    case Logout(reqid) => Int32RoundTrip(reqid);
    case KeepAlive =>
    case ByColumn(_, _, _, _) => ColumnRoundTrip(r);
    case ByObjects(_, _, _, _) => ObjectsRoundTrip(r);
  }

  lemma RequestIdFirst(r: Request)
    requires Encodable(r) && !r.KeepAlive?
    ensures Rest(r) != [] && |Rest(r)[0]| == 4 && Int32From(Rest(r)[0][..4]) == r.reqid
  {
    Int32RoundTrip(r.reqid);
    assert Rest(r)[0] == Int32Bytes(r.reqid) && Rest(r)[0][..4] == Rest(r)[0];
  }

  /** Every request an encoder can send is understood whatever the state of the sessions: accepted, the
      server recovers identity, command, request id, element type and all filters or objects; refused, it
      answers with the request id that was sent, or 0 for a keep-alive, which has none. */
  lemma RequestRoundTrip(s: Service, router: Router, id: Id, r: Request, time: int)
    requires Encodable(r)
    ensures var v := Check(s, Message(router, id, Cmd(r), time));
      Serve(s, [router] + Frames(id, r), time) ==
        Some(if v.Reached? then Served(router, id, r)
             else Refused(router, id, Cmd(r), if r.KeepAlive? then 0 else r.reqid, v))
  {
    HeaderRead(router, id, r);
    if Check(s, Message(router, id, Cmd(r), time)).Reached? {
      RestRoundTrip(r);
    } else if !r.KeepAlive? {
      RequestIdFirst(r);
    }
  }

  /** The three leading frames, and what is behind them. */
  lemma HeaderRead(router: Router, id: Id, r: Request)
    ensures var m := [router] + Frames(id, r);
      && m[0] == router && m[1] == id && |m[2]| == 4 && Int32From(m[2][..4]) == Cmd(r) && m[3..] == Rest(r)
  {
    var m := [router] + Frames(id, r);
    Int32RoundTrip(Cmd(r));
    assert m[2] == Int32Bytes(Cmd(r)) && m[2][..4] == m[2];
  }
}

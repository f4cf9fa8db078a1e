/** Server messages: how `DispatcherService` frames them and how the automaton in
    `DispatcherManager::recvHandle` turns frames into callbacks. */
module Responses {
  import opened Bytes
  import opened Options
  import opened Requests
  import Sessions

  const PASSIVE_RESPONSE := 0
  const ACTIVE_PUSH := 1
  const T_DEPLOY := 9
  const T_FINISH := 11

  /** `ReqResponse`: error id, 64 bytes of text, request id, command. */
  datatype ReqResponse = ReqResponse(errorID: int32, errMsg: Frame, requestID: int32, cmdType: int32) {
    predicate WellSized() { |errMsg| == 64 }
  }

  const RSP_SIZE := 76

  function RspBytes(r: ReqResponse): (f: Frame)
    requires r.WellSized()
    ensures |f| == RSP_SIZE
  {
    Int32Bytes(r.errorID) + r.errMsg + Int32Bytes(r.requestID) + Int32Bytes(r.cmdType)
  }

  function RspFrom(f: Frame): (r: ReqResponse)
    requires |f| == RSP_SIZE
  {
    ReqResponse(Int32From(f[..4]), f[4..68], Int32From(f[68..72]), Int32From(f[72..76]))
  }

  lemma RspRoundTrip(r: ReqResponse)
    requires r.WellSized()
    ensures RspFrom(RspBytes(r)) == r
  {
    var f := RspBytes(r);
    Int32RoundTrip(r.errorID);
    Int32RoundTrip(r.requestID);
    Int32RoundTrip(r.cmdType);
    assert f[..4] == Int32Bytes(r.errorID) && f[4..68] == r.errMsg;
    assert f[68..72] == Int32Bytes(r.requestID) && f[72..76] == Int32Bytes(r.cmdType);
  }

  /** What the server sends to a client, without the router frame. */
  datatype ServerMessage =
    | Bare(rsp: ReqResponse)
    | QueryResult(rsp: ReqResponse, eletype: int32, objects: seq<Frame>)
    | Push(cmd: int32)

  predicate Sendable(m: ServerMessage) { m.Push? || m.rsp.WellSized() }

  function FramesOf(m: ServerMessage): (fs: seq<Frame>)
    requires Sendable(m)
    ensures |fs| >= 2
  {
    match m
    case Bare(rsp) => [Int32Bytes(PASSIVE_RESPONSE), RspBytes(rsp)]
    case QueryResult(rsp, eletype, objects) =>
      [Int32Bytes(PASSIVE_RESPONSE), RspBytes(rsp), Int32Bytes(eletype)] + objects
    case Push(cmd) => [Int32Bytes(ACTIVE_PUSH), Int32Bytes(cmd)]
  }

  // ---------------------------------------------------------------------------
  // The server's sends
  // ---------------------------------------------------------------------------

  /** A message and the peer it is for. */
  datatype Reply = Reply(router: Frame, message: ServerMessage)

  type Replies = rs: seq<Reply> | forall i :: 0 <= i < |rs| ==> Sendable(rs[i].message)

  function Routed(r: Reply): (m: Multipart)
    requires Sendable(r.message)
    ensures |m| >= 3 && m[0] == r.router && m[1..] == FramesOf(r.message)
  {
    [r.router] + FramesOf(r.message)
  }

  function Outgoing(rs: Replies): (ms: seq<Multipart>)
    ensures |ms| == |rs|
  {
    seq(|rs|, i requires 0 <= i < |rs| => Routed(rs[i]))
  }

  /** Router, pattern, response, element type, then one part for each element found. */
  method QueryParts(router: Frame, rsp: ReqResponse, eletype: int32, objects: seq<Frame>) returns (parts: seq<Part>)
    requires rsp.WellSized()
    ensures parts == Flagged([router] + FramesOf(QueryResult(rsp, eletype, objects)))
  {
    parts := [Part(router, false), Part(Int32Bytes(PASSIVE_RESPONSE), false), Part(RspBytes(rsp), false),
              Part(Int32Bytes(eletype), |objects| == 0)];
    ghost var head := [router, Int32Bytes(PASSIVE_RESPONSE), RspBytes(rsp), Int32Bytes(eletype)];
    for i := 0 to |objects|
      invariant Marked(parts, head + objects[..i], i == |objects|)
    {
      parts := parts + [Part(objects[i], i == |objects| - 1)];
      assert head + objects[..i + 1] == (head + objects[..i]) + [objects[i]];
    }
    assert objects[..|objects|] == objects;
    MarkedIsFlagged(parts, head + objects);
    assert head + objects == [router] + FramesOf(QueryResult(rsp, eletype, objects));
  }

  /** The sends on the bound socket. The workers' messages come to it part by part through an inproc socket
      from which the poll thread relays one whole message at a time. */
  class BindSocket {
    var sent: seq<Part>
    ghost var replies: Replies

    ghost predicate Valid()
      reads this
    {
      sent == AllParts(Outgoing(replies))
    }

    constructor ()
      ensures Valid() && replies == []
    {
      sent, replies := [], [];
    }

    ghost method Record(r: Reply, before: seq<Part>)
      requires Sendable(r.message) && before == AllParts(Outgoing(replies)) && sent == before + Flagged(Routed(r))
      modifies this`replies
      ensures Valid() && replies == old(replies) + [r]
    {
      AllPartsSnoc(Outgoing(replies), Routed(r));
      assert Outgoing(replies + [r]) == Outgoing(replies) + [Routed(r)];
      replies := replies + [r];
    }

    /** The sending half of `onQryBySql`. */
    method SendQueryResult(router: Frame, rsp: ReqResponse, eletype: int32, objects: seq<Frame>)
      requires Valid() && rsp.WellSized()
      modifies this
      ensures Valid() && replies == old(replies) + [Reply(router, QueryResult(rsp, eletype, objects))]
      ensures sent == old(sent) + Flagged([router] + FramesOf(QueryResult(rsp, eletype, objects)))
    {
      var parts := QueryParts(router, rsp, eletype, objects);
      sent := sent + parts;
      Record(Reply(router, QueryResult(rsp, eletype, objects)), old(sent));
    }

    /** The replies of the poll thread and of the changing workers: a response on its own. */
    method SendBare(router: Frame, rsp: ReqResponse)
      requires Valid() && rsp.WellSized()
      modifies this
      ensures Valid() && replies == old(replies) + [Reply(router, Bare(rsp))]
      ensures sent == old(sent) + Flagged([router] + FramesOf(Bare(rsp)))
    {
      var parts := [Part(router, false), Part(Int32Bytes(PASSIVE_RESPONSE), false), Part(RspBytes(rsp), true)];
      MarkedIsFlagged(parts, [router] + FramesOf(Bare(rsp)));
      sent := sent + parts;
      Record(Reply(router, Bare(rsp)), old(sent));
    }

    /** The push in `katimeHandle`. */
    method SendPush(router: Frame, cmd: int32)
      requires Valid()
      modifies this
      ensures Valid() && replies == old(replies) + [Reply(router, Push(cmd))]
      ensures sent == old(sent) + Flagged([router] + FramesOf(Push(cmd)))
    {
      var parts := [Part(router, false), Part(Int32Bytes(ACTIVE_PUSH), false), Part(Int32Bytes(cmd), true)];
      MarkedIsFlagged(parts, [router] + FramesOf(Push(cmd)));
      sent := sent + parts;
      Record(Reply(router, Push(cmd)), old(sent));
    }
  }

  // ---------------------------------------------------------------------------
  // The client's automaton
  // ---------------------------------------------------------------------------

  datatype Stat = StatInit | StatGetPattern | StatGetCmd | StatGetRsp | StatGetEleType

  datatype Kind = RspLogin | RspLogout | RspDeploy | RspFinish | RspInsert | RspDelete | RspUpdate | RspCommon

  datatype Callback =
    | OnRsp(kind: Kind, rsp: ReqResponse)
    | OnElement(rsp: ReqResponse, eletype: int32, data: Option<Frame>, last: bool)
    | AnswerKeepAlive

  /** `onReqRsp(ReqResponse &)` */
  function KindOf(cmd: int): Kind {
    if cmd == Sessions.T_LOGIN then RspLogin
    else if cmd == Sessions.T_LOGOUT then RspLogout
    else if cmd == T_DEPLOY then RspDeploy
    else if cmd == T_FINISH then RspFinish
    else if cmd == T_INSERT then RspInsert
    else if cmd == T_DELETE || cmd == T_DELBYCOL then RspDelete
    else if cmd == T_UPDATE then RspUpdate
    else RspCommon
  }

  /** `onReqRsp` with an element: only queries for a known table have a callback. */
  function ElementCalls(rsp: ReqResponse, eletype: int32, data: Option<Frame>, last: bool): seq<Callback> {
    if rsp.cmdType == T_QUERY && KnownElement(eletype) then [OnElement(rsp, eletype, data, last)] else []
  }

  /** `onMsgPush(int)` */
  function PushCalls(cmd: int): seq<Callback> {
    if cmd == Sessions.T_KEEPALIVE then [AnswerKeepAlive] else []
  }

  /** The receive state, the callbacks made, and whether a size assertion has failed. */
  datatype Auto = Auto(stat: Stat, pattern: int32, rsp: ReqResponse, cmd: int32, eletype: int32,
                       calls: seq<Callback>, aborted: bool)

  /** `recvHandle` on one frame. */
  function Step(a: Auto, p: Part): Auto {
    if a.aborted then a else
    match a.stat
    case StatInit =>
      if |p.data| != 4 then a.(aborted := true)
      else a.(pattern := Int32From(p.data), stat := if p.last then StatInit else StatGetPattern)
    case StatGetPattern =>
      if a.pattern == PASSIVE_RESPONSE then
        if |p.data| != RSP_SIZE then a.(aborted := true)
        else
          var rsp := RspFrom(p.data);
          if p.last then a.(rsp := rsp, stat := StatInit, calls := a.calls + [OnRsp(KindOf(rsp.cmdType), rsp)])
          else a.(rsp := rsp, stat := StatGetRsp)
      else
        if |p.data| != 4 then a.(aborted := true)
        else
          var cmd := Int32From(p.data);
          if p.last then a.(cmd := cmd, stat := StatInit, calls := a.calls + PushCalls(cmd))
          else a.(cmd := cmd, stat := StatGetCmd)
    case StatGetCmd =>
      if |p.data| != 4 then a.(aborted := true)
      else a.(eletype := Int32From(p.data), stat := if p.last then StatInit else StatGetEleType)
    case StatGetRsp =>
      if |p.data| != 4 then a.(aborted := true)
      else
        var eletype := Int32From(p.data);
        if p.last then
          a.(eletype := eletype, stat := StatInit, calls := a.calls + ElementCalls(a.rsp, eletype, None, true))
        else a.(eletype := eletype, stat := StatGetEleType)
    case StatGetEleType =>
      var calls := if a.pattern == PASSIVE_RESPONSE then ElementCalls(a.rsp, a.eletype, Some(p.data), p.last) else [];
      a.(stat := if p.last then StatInit else a.stat, calls := a.calls + calls)
  }

  function Feed(a: Auto, ps: seq<Part>): Auto
    decreases |ps|
  {
    if ps == [] then a else Feed(Step(a, ps[0]), ps[1..])
  }

  lemma {:induction false} FeedAppend(a: Auto, ps: seq<Part>, qs: seq<Part>)
    ensures Feed(a, ps + qs) == Feed(Feed(a, ps), qs)
    decreases |ps|
  {
    if ps == [] {
      assert ps + qs == qs;
    } else {
      assert (ps + qs)[1..] == ps[1..] + qs;
      FeedAppend(Step(a, ps[0]), ps[1..], qs);
    }
  }

  /** Whatever is received, the automaton is back at its start exactly after a part marked last. */
  lemma StartsAfterLast(a: Auto, p: Part)
    ensures !Step(a, p).aborted ==> (Step(a, p).stat.StatInit? <==> p.last)
  {
  }

  /** Over any run: between two frames the automaton is at its start exactly at message boundaries. */
  lemma {:induction false} BoundaryExactly(a: Auto, ps: seq<Part>)
    requires a.stat.StatInit? && !Feed(a, ps).aborted
    ensures Feed(a, ps).stat.StatInit? <==> ps == [] || ps[|ps| - 1].last
  {
    if ps != [] {
      var n := |ps| - 1;
      assert ps == ps[..n] + [ps[n]];
      FeedAppend(a, ps[..n], [ps[n]]);
      var b := Feed(a, ps[..n]);
      assert Feed(b, [ps[n]]) == Step(b, ps[n]) by { assert Feed(Step(b, ps[n]), []) == Step(b, ps[n]); }
      StartsAfterLast(b, ps[n]);
    }
  }

  /** One callback for each element, the last one marked. */
  function ElementSeq(rsp: ReqResponse, eletype: int32, objects: seq<Frame>): seq<Callback> {
    if objects == [] then []
    else ElementCalls(rsp, eletype, Some(objects[0]), |objects| == 1) + ElementSeq(rsp, eletype, objects[1..])
  }

  /** The callbacks a message is meant to cause. */
  function CallsOf(m: ServerMessage): seq<Callback> {
    match m
    case Bare(rsp) => [OnRsp(KindOf(rsp.cmdType), rsp)]
    case QueryResult(rsp, eletype, objects) =>
      if objects == [] then ElementCalls(rsp, eletype, None, true) else ElementSeq(rsp, eletype, objects)
    case Push(cmd) => PushCalls(cmd)
  }

  lemma {:induction false} FeedElements(a: Auto, objects: seq<Frame>)
    requires a.stat.StatGetEleType? && !a.aborted && a.pattern == PASSIVE_RESPONSE && objects != []
    ensures var b := Feed(a, Flagged(objects));
      b.stat.StatInit? && !b.aborted && b.calls == a.calls + ElementSeq(a.rsp, a.eletype, objects)
    decreases |objects|
  {
    var ps := Flagged(objects);
    var a' := Step(a, ps[0]);
    var first := ElementCalls(a.rsp, a.eletype, Some(objects[0]), |objects| == 1);
    var others := ElementSeq(a.rsp, a.eletype, objects[1..]);
    assert a'.calls == a.calls + first;
    assert a.calls + (first + others) == (a.calls + first) + others;
    if |objects| == 1 {
      assert ps[1..] == [];
      assert others == [];
    } else {
      assert ps[1..] == Flagged(objects[1..]);
      FeedElements(a', objects[1..]);
    }
  }

  lemma FeedTwo(a: Auto, p: Part, q: Part, more: seq<Part>)
    ensures Feed(a, [p, q] + more) == Feed(Step(Step(a, p), q), more)
  {
    assert ([p, q] + more)[1..] == [q] + more;
    assert ([q] + more)[1..] == more;
  }

  /** A query result: the fixed part, then the elements. */
  lemma FeedQuery(a: Auto, m: ServerMessage)
    requires a.stat.StatInit? && !a.aborted && m.QueryResult? && Sendable(m)
    ensures var b := Feed(a, Flagged(FramesOf(m)));
      b.stat.StatInit? && !b.aborted && b.calls == a.calls + CallsOf(m)
  {
    var fs, none := FramesOf(m), m.objects == [];
    RspRoundTrip(m.rsp);
    Int32RoundTrip(PASSIVE_RESPONSE);
    Int32RoundTrip(m.eletype);
    var p, q, r := Part(fs[0], false), Part(fs[1], false), Part(fs[2], none);
    var b := Step(Step(Step(a, p), q), r);
    assert b == Auto(if none then StatInit else StatGetEleType, PASSIVE_RESPONSE, m.rsp, a.cmd, m.eletype,
                     if none then a.calls + CallsOf(m) else a.calls, false);
    assert Flagged(fs) == [p, q] + ([r] + Flagged(m.objects)) by {
      assert forall i :: 3 <= i < |fs| ==> fs[i] == m.objects[i - 3];
    }
    FeedTwo(a, p, q, [r] + Flagged(m.objects));
    assert ([r] + Flagged(m.objects))[1..] == Flagged(m.objects);
    if !none {
      FeedElements(b, m.objects);
    }
  }

  lemma FeedShort(a: Auto, m: ServerMessage)
    requires a.stat.StatInit? && !a.aborted && !m.QueryResult? && Sendable(m)
    ensures var b := Feed(a, Flagged(FramesOf(m)));
      b.stat.StatInit? && !b.aborted && b.calls == a.calls + CallsOf(m)
  {
    var fs := FramesOf(m);
    var p, q := Part(fs[0], false), Part(fs[1], true);
    assert Flagged(fs) == [p, q] + [];
    FeedTwo(a, p, q, []);
    if m.Bare? {
      RspRoundTrip(m.rsp);
      Int32RoundTrip(PASSIVE_RESPONSE);
    } else {
      Int32RoundTrip(ACTIVE_PUSH);
      Int32RoundTrip(m.cmd);
    }
  }

  function StreamOf(ms: seq<ServerMessage>): seq<Part>
    requires forall i :: 0 <= i < |ms| ==> Sendable(ms[i])
  {
    if ms == [] then [] else Flagged(FramesOf(ms[0])) + StreamOf(ms[1..])
  }

  function AllCalls(ms: seq<ServerMessage>): seq<Callback> {
    if ms == [] then [] else CallsOf(ms[0]) + AllCalls(ms[1..])
  }

  /** Every sequence of server messages causes exactly its callbacks, in order, and leaves the automaton at
      its start. */
  lemma {:induction false} AutomatonFollows(a: Auto, ms: seq<ServerMessage>)
    requires a.stat.StatInit? && !a.aborted && forall i :: 0 <= i < |ms| ==> Sendable(ms[i])
    ensures var b := Feed(a, StreamOf(ms));
      b.stat.StatInit? && !b.aborted && b.calls == a.calls + AllCalls(ms)
    decreases |ms|
  {
    if ms == [] {
      assert a.calls + [] == a.calls;
    } else {
      var b := Feed(a, Flagged(FramesOf(ms[0])));
      FeedMessage(a, ms[0]);
      AutomatonFollows(b, ms[1..]);
      Regroup(a.calls, CallsOf(ms[0]), AllCalls(ms[1..]));
      FeedAppend(a, Flagged(FramesOf(ms[0])), StreamOf(ms[1..]));
    }
  }

  lemma FeedMessage(a: Auto, m: ServerMessage)
    requires a.stat.StatInit? && !a.aborted && Sendable(m)
    ensures var b := Feed(a, Flagged(FramesOf(m)));
      b.stat.StatInit? && !b.aborted && b.calls == a.calls + CallsOf(m)
  {
    if m.QueryResult? { FeedQuery(a, m); } else { FeedShort(a, m); }
  }

  /** For a query on a known table those are `n` element callbacks, in order, of which only the final one
      is marked last, or a single empty one, marked last, when nothing was found. */
  lemma {:induction false} QueryCallbacks(rsp: ReqResponse, eletype: int32, objects: seq<Frame>)
    requires rsp.cmdType == T_QUERY && KnownElement(eletype)
    ensures var cs := CallsOf(QueryResult(rsp, eletype, objects));
      if objects == [] then cs == [OnElement(rsp, eletype, None, true)]
      else |cs| == |objects| && forall i :: 0 <= i < |objects| ==>
             cs[i] == OnElement(rsp, eletype, Some(objects[i]), i == |objects| - 1)
    decreases |objects|
  {
    if |objects| > 1 {
      QueryCallbacks(rsp, eletype, objects[1..]);
    } else if |objects| == 1 {
      assert ElementSeq(rsp, eletype, objects[1..]) == [];
    }
  }

  /** A response with elements for anything else causes no callback. */
  lemma {:induction false} OtherElements(rsp: ReqResponse, eletype: int32, objects: seq<Frame>)
    requires rsp.cmdType != T_QUERY || !KnownElement(eletype)
    ensures CallsOf(QueryResult(rsp, eletype, objects)) == []
    decreases |objects|
  {
    if |objects| > 1 {
      OtherElements(rsp, eletype, objects[1..]);
    } else if |objects| == 1 {
      assert ElementSeq(rsp, eletype, objects[1..]) == [];
    }
  }

  /** The callbacks of plain responses, in the order of `ECommandType`. */
  const KINDS := [RspCommon, RspLogin, RspLogout, RspCommon, RspCommon, RspInsert, RspDelete, RspDelete, RspUpdate,
                  RspDeploy, RspCommon, RspFinish]

  lemma BareCallbacks(rsp: ReqResponse)
    ensures CallsOf(Bare(rsp)) ==
      [OnRsp(if 0 <= rsp.cmdType < |KINDS| then KINDS[rsp.cmdType] else RspCommon, rsp)]
  {
  }

  /** A keep-alive push is answered once and any other push not at all. */
  lemma PushCallbacks(cmd: int32)
    ensures CallsOf(Push(cmd)) == if cmd == 3 then [AnswerKeepAlive] else []
  {
  }

  /** A push with more than its command is read to its end without a callback. */
  lemma {:induction false} LongPush(a: Auto, ps: seq<Part>)
    requires a.pattern != PASSIVE_RESPONSE && (a.stat.StatGetCmd? || a.stat.StatGetEleType?) && !a.aborted
    requires forall i :: 0 <= i < |ps| - 1 ==> !ps[i].last
    ensures Feed(a, ps).calls == a.calls
    decreases |ps|
  {
    if |ps| == 1 {
      var rest := ps[1..];
      assert rest == [] && Feed(Step(a, ps[0]), rest) == Step(a, ps[0]);
      assert a.calls + [] == a.calls;
    } else if |ps| > 1 {
      var b := Step(a, ps[0]);
      assert a.calls + [] == a.calls;
      if b.aborted { AbortStays(b, ps[1..]); } else { LongPush(b, ps[1..]); }
    }
  }

  lemma {:induction false} AbortStays(a: Auto, ps: seq<Part>)
    requires a.aborted
    ensures Feed(a, ps) == a
    decreases |ps|
  {
    if ps != [] { AbortStays(a, ps[1..]); }
  }

  // ---------------------------------------------------------------------------
  // From the server's sends to a client's callbacks
  // ---------------------------------------------------------------------------

  /** What a ROUTER socket makes of the messages it is given for one peer: the first frame selects it and
      is removed. */
  function ToPeer(ms: seq<Multipart>, router: Frame): seq<Multipart> {
    if ms == [] then []
    else
      var others := ToPeer(ms[1..], router);
      if ms[0][0] == router && |ms[0]| > 1 then [ms[0][1..]] + others else others
  }

  function For(rs: Replies, router: Frame): (ms: seq<ServerMessage>)
    ensures forall i :: 0 <= i < |ms| ==> Sendable(ms[i])
    decreases |rs|
  {
    if rs == [] then []
    else
      var others := For(rs[1..], router);
      if rs[0].router == router then [rs[0].message] + others else others
  }

  lemma {:induction false} PeerStream(rs: Replies, router: Frame)
    ensures AllParts(ToPeer(Outgoing(rs), router)) == StreamOf(For(rs, router))
    decreases |rs|
  {
    if rs != [] {
      var out := Outgoing(rs);
      assert out[0] == Routed(rs[0]) && out[1..] == Outgoing(rs[1..]);
      PeerStream(rs[1..], router);
      if rs[0].router == router {
        PeerFirst(out[0][1..], ToPeer(out[1..], router));
      }
    }
  }

  lemma PeerFirst(m: Multipart, more: seq<Multipart>)
    ensures AllParts([m] + more) == Flagged(m) + AllParts(more)
  {
    assert ([m] + more)[1..] == more;
  }

  /** Whatever the server sends to whom: the parts assemble to its messages, and each client's automaton
      makes exactly the callbacks of the messages addressed to it, in order, ending at its start. */
  lemma ClientHears(rs: Replies, router: Frame, a: Auto)
    requires a.stat.StatInit? && !a.aborted
    ensures var (messages, open) := Assemble(AllParts(Outgoing(rs)), []);
      && open == []
      && var b := Feed(a, AllParts(ToPeer(messages, router)));
         b.stat.StatInit? && !b.aborted && b.calls == a.calls + AllCalls(For(rs, router))
  {
    StreamAssembles(Outgoing(rs));
    PeerStream(rs, router);
    AutomatonFollows(a, For(rs, router));
  }

  /** The keep-alive loop closes: the push makes the client send one answer, and on the server that answer is
      let through for the router that holds the session and renews it. */
  lemma KeepAliveRenews(s: Sessions.Service, id: Sessions.Id, router: Sessions.Router, last: int, time: int, a: Auto)
    requires id in s.cache && Sessions.SeatIn(s, id) == Sessions.Held(router, last)
    requires a.stat.StatInit? && !a.aborted
    ensures Feed(a, Flagged(FramesOf(Push(Sessions.T_KEEPALIVE)))).calls == a.calls + [AnswerKeepAlive]
    ensures Serve(s, [router] + Frames(id, KeepAlive), time) == Some(Served(router, id, KeepAlive))
    ensures var s' := Sessions.OnMessage(s, Served(router, id, KeepAlive).Event(time));
      Sessions.SeatIn(s', id) == Sessions.Held(router, time)
  {
    FeedMessage(a, Push(Sessions.T_KEEPALIVE));
    RequestRoundTrip(s, router, id, KeepAlive, time);
  }

  // ---------------------------------------------------------------------------
  // From a refused request back to its sender
  // ---------------------------------------------------------------------------

  /** The response the poll thread builds for a refusal. */
  function RefusalRsp(o: Outcome, text: Frame): ReqResponse
    requires o.Refused?
  {
    ReqResponse(Sessions.ErrorOf(o.verdict), text, o.reqid, o.cmd)
  }

  /** The callback the sender of a request waits for. */
  function ReplyKind(r: Request): Kind {
    match r
    case Login(_) => RspLogin
    case Logout(_) => RspLogout
    case ByColumn(cmd, _, _, _) => if cmd == T_QUERY then RspCommon else RspDelete
    case ByObjects(cmd, _, _, _) =>
      if cmd == T_INSERT then RspInsert else if cmd == T_UPDATE then RspUpdate else RspDelete
    case KeepAlive => RspCommon
    case Skipped(_) => RspCommon
  }

  /** A refused request comes back: what the server answers makes the sender's automaton call exactly the
      callback of that kind of request, with the request id that was sent and the reason. */
  lemma RefusalReturns(s: Sessions.Service, router: Sessions.Router, id: Sessions.Id, r: Request, time: int,
                       text: Frame, a: Auto)
    requires Encodable(r) && |text| == 64 && a.stat.StatInit? && !a.aborted
    requires !Sessions.Check(s, Sessions.Message(router, id, Cmd(r), time)).Reached?
    ensures Serve(s, [router] + Frames(id, r), time).Some?
    ensures var o := Serve(s, [router] + Frames(id, r), time).value;
      && o.Refused? && o.router == router
      && Feed(a, Flagged(FramesOf(Bare(RefusalRsp(o, text))))).calls
         == a.calls + [OnRsp(ReplyKind(r), RefusalRsp(o, text))]
      && RefusalRsp(o, text).requestID == (if r.KeepAlive? then 0 else r.reqid)
      && RefusalRsp(o, text).errorID ==
           (if id !in s.cache then 2 else if Sessions.SeatIn(s, id).Held? then 4 else 3)
  {
    RequestRoundTrip(s, router, id, r, time);
    FeedMessage(a, Bare(RefusalRsp(Serve(s, [router] + Frames(id, r), time).value, text)));
  }

  // ---------------------------------------------------------------------------
  // The object
  // ---------------------------------------------------------------------------

  /** The receive fields of `DispatcherManager`. */
  class ResponseHandler {
    var stateMachine: Stat
    var msgPattern: int32
    var reqRsp: ReqResponse
    var recvCmd: int32
    var recvEleType: int32
    var calls: seq<Callback>
    var aborted: bool

    ghost function State(): Auto
      reads this
    {
      Auto(stateMachine, msgPattern, reqRsp, recvCmd, recvEleType, calls, aborted)
    }

    constructor (garbage: ReqResponse)
      ensures State() == Auto(StatInit, 0, garbage, 0, 0, [], false)
    {
      stateMachine, msgPattern, reqRsp, recvCmd, recvEleType, calls, aborted := StatInit, 0, garbage, 0, 0, [], false;
    }

    method RecvHandle(data: Frame, last: bool)
      requires !aborted
      modifies this
      ensures State() == Step(old(State()), Part(data, last))
    {
      match stateMachine
      case StatInit =>
        if |data| != 4 { aborted := true; return; }
        msgPattern := Int32From(data);
        if !last { stateMachine := StatGetPattern; }
      case StatGetPattern =>
        if msgPattern == PASSIVE_RESPONSE {
          if |data| != RSP_SIZE { aborted := true; return; }
          reqRsp := RspFrom(data);
          if last {
            stateMachine := StatInit;
            calls := calls + [OnRsp(KindOf(reqRsp.cmdType), reqRsp)];
          } else {
            stateMachine := StatGetRsp;
          }
        } else {
          if |data| != 4 { aborted := true; return; }
          recvCmd := Int32From(data);
          if last {
            stateMachine := StatInit;
            calls := calls + PushCalls(recvCmd);
          } else {
            stateMachine := StatGetCmd;
          }
        }
      case StatGetCmd =>
        if |data| != 4 { aborted := true; return; }
        recvEleType := Int32From(data);
        stateMachine := if last then StatInit else StatGetEleType;
      case StatGetRsp =>
        if |data| != 4 { aborted := true; return; }
        recvEleType := Int32From(data);
        if last {
          stateMachine := StatInit;
          calls := calls + ElementCalls(reqRsp, recvEleType, None, last);
        } else {
          stateMachine := StatGetEleType;
        }
      case StatGetEleType =>
        if last { stateMachine := StatInit; }
        if msgPattern == PASSIVE_RESPONSE {
          calls := calls + ElementCalls(reqRsp, recvEleType, Some(data), last);
        } else {
          assert calls + [] == calls;
        }
    }
  }
}

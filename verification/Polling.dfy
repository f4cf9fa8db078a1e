/** The reading side of `DispatcherService`: `pollFunc`, `onRecvCmd` and their helpers, on a socket whose
    `recv` takes the next frame whether or not it belongs to the message being read. */
module Polling {
  import opened Bytes
  import opened Options
  import opened Sessions
  import opened Requests

  /** The bound ROUTER socket: the frames left of the message being read, and the messages behind it. */
  datatype Cursor = Cursor(rest: seq<Frame>, queue: seq<Multipart>)

  /** Why a turn does not come to its end. The source gives it no meaning from there on: a size assertion
      fails, a copy goes past the end of a frame, or a table is looked up that does not exist. Or it waits
      in `recv` for a message that has not arrived. */
  datatype Stop = Broken | Waits

  datatype Reading<+T> = Read(value: T, next: Cursor) | Halt(stop: Stop)

  function Ended<T>(stop: Option<Stop>, value: T, c: Cursor): Reading<T> {
    if stop.Some? then Halt(stop.value) else Read(value, c)
  }

  // ---------------------------------------------------------------------------
  // Reading, as functions of the cursor
  // ---------------------------------------------------------------------------

  function NextFrame(c: Cursor): Reading<Frame> {
    if c.rest != [] then Read(c.rest[0], c.(rest := c.rest[1..]))
    else if c.queue != [] then Read(c.queue[0][0], Cursor(c.queue[0][1..], c.queue[1..]))
    else Halt(Waits)
  }

  /** `recvPodObject<int>` */
  function NextInt(c: Cursor): Reading<int32> {
    match NextFrame(c)
    case Halt(w) => Halt(w)
    case Read(f, c') => if |f| == 4 then Read(Int32From(f), c') else Halt(Broken)
  }

  /** The name/value loop of `TQuery` and `TDelByCol`: whether there is more is asked before the name only. */
  function NextFilters(c: Cursor): Reading<seq<ColumnFilter>>
    decreases |c.queue|, |c.rest|
  {
    if c.rest == [] then Read([], c)
    else
      match NextFrame(c.(rest := c.rest[1..]))
      case Halt(w) => Halt(w)
      case Read(val, c') =>
        match NextFilters(c')
        case Halt(w) => Halt(w)
        case Read(fs, c'') => Read([ColumnFilter(c.rest[0], val)] + fs, c'')
  }

  /** `recvVecObject`, which copies `size` bytes from each remaining frame. */
  function NextObjects(c: Cursor, size: nat): Reading<seq<Frame>> {
    if forall i :: 0 <= i < |c.rest| ==> |c.rest[i]| >= size then Read(ToObjects(c.rest, size), c.(rest := []))
    else Halt(Broken)
  }

  /** The body of a request for a table: what `eletype` does to it depends on the command. */
  function ReadTable(c: Cursor, cmd: int32, reqid: int32, eletype: int32): Reading<Request> {
    if IsByColumn(cmd) then
      match NextFilters(c)
      case Halt(w) => Halt(w)
      case Read(fs, c') => if KnownElement(eletype) then Read(ByColumn(cmd, reqid, eletype, fs), c') else Halt(Broken)
    else if KnownElement(eletype) then
      match NextObjects(c, ElementSize(eletype))
      case Halt(w) => Halt(w)
      case Read(objects, c') => Read(ByObjects(cmd, reqid, eletype, objects), c')
    else Read(Skipped(cmd), c)
  }

  /** `onRecvCmd` */
  function ReadRequest(c: Cursor, cmd: int32): Reading<Request> {
    if cmd == T_KEEPALIVE then Read(KeepAlive, c)
    else if cmd == T_LOGIN || cmd == T_LOGOUT then
      match NextInt(c)
      case Halt(w) => Halt(w)
      case Read(reqid, c') => Read(if cmd == T_LOGIN then Login(reqid) else Logout(reqid), c')
    else if IsByColumn(cmd) || IsByObjects(cmd) then
      match NextInt(c)
      case Halt(w) => Halt(w)
      case Read(reqid, c') =>
        match NextInt(c')
        case Halt(w) => Halt(w)
        case Read(eletype, c'') => ReadTable(c'', cmd, reqid, eletype)
    else Read(Skipped(cmd), c)
  }

  /** The request id of a refused message, looked for only if there is another frame. */
  function ReadRefusal(c: Cursor, v: Verdict): Reading<int32> {
    if c.rest == [] then Read(0, c)
    else if RefusalReadable(v, c.rest) then Read(Int32From(c.rest[0][..4]), c.(rest := c.rest[1..]))
    else Halt(Broken)
  }

  datatype Header = Header(router: Router, id: Id, cmd: int32)

  function ReadHeader(c: Cursor): Reading<Header> {
    match NextFrame(c)
    case Halt(w) => Halt(w)
    case Read(router, c1) =>
      match NextFrame(c1)
      case Halt(w) => Halt(w)
      case Read(id, c2) =>
        match NextFrame(c2)
        case Halt(w) => Halt(w)
        case Read(raw, c3) => if |raw| < 4 then Halt(Broken) else Read(Header(router, id, Int32From(raw[..4])), c3)
  }

  /** What happens behind the header, up to `skip_label`. */
  function Dispatch(s: Service, h: Header, c: Cursor, time: int): Reading<Outcome> {
    var v := Check(s, Message(h.router, h.id, h.cmd, time));
    if v.Reached? then
      match ReadRequest(c, h.cmd)
      case Halt(w) => Halt(w)
      case Read(r, c') => Read(Served(h.router, h.id, r), c')
    else
      match ReadRefusal(c, v)
      case Halt(w) => Halt(w)
      case Read(reqid, c') => Read(Refused(h.router, h.id, h.cmd, reqid, v), c')
  }

  /** One turn on the bound socket: header, dispatch, and the rest of the message skipped. */
  function Polled(s: Service, c: Cursor, time: int): Reading<Outcome> {
    match ReadHeader(c)
    case Halt(w) => Halt(w)
    case Read(h, c') =>
      match Dispatch(s, h, c', time)
      case Halt(w) => Halt(w)
      case Read(o, c'') => Read(o, c''.(rest := []))
  }

  // ---------------------------------------------------------------------------
  // How many messages a turn takes
  // ---------------------------------------------------------------------------

  function Total(q: seq<Multipart>): nat {
    if q == [] then 0 else |q[0]| + Total(q[1..])
  }

  /** Where `n` reads lead from the start of a queue: by the lengths of the messages alone. */
  function Advance(q: seq<Multipart>, n: nat): Cursor
    requires n <= Total(q)
  {
    if n == 0 then Cursor([], q)
    else if n <= |q[0]| then Cursor(q[0][n..], q[1..])
    else Advance(q[1..], n - |q[0]|)
  }

  lemma {:induction false} FrameAfter(q: seq<Multipart>, n: nat)
    requires n <= Total(q)
    ensures n < Total(q) ==> NextFrame(Advance(q, n)).Read? && NextFrame(Advance(q, n)).next == Advance(q, n + 1)
    ensures n == Total(q) ==> NextFrame(Advance(q, n)) == Halt(Waits)
    decreases |q|
  {
    if n > 0 && n > |q[0]| {
      FrameAfter(q[1..], n - |q[0]|);
    } else if n > 0 && n == |q[0]| {
      assert q[0][n..] == [];
      FrameAfter(q[1..], 0);
    } else if n > 0 {
      assert q[0][n..][1..] == q[0][n + 1..];
    }
  }

  /** The position of the first message with an odd number of frames. */
  function FirstOdd(q: seq<Multipart>): (k: nat)
    ensures k <= |q| && (k < |q| ==> |q[k]| % 2 == 1) && forall i :: 0 <= i < k ==> |q[i]| % 2 == 0
  {
    if q == [] || |q[0]| % 2 == 1 then 0 else 1 + FirstOdd(q[1..])
  }

  function Flat(q: seq<Multipart>): seq<Frame> {
    if q == [] then [] else q[0] + Flat(q[1..])
  }

  lemma {:induction false} FlatEven(rest: seq<Frame>, q: seq<Multipart>, k: nat)
    requires |rest| % 2 == 1 && k < |q| && |q[k]| % 2 == 1 && forall i :: 0 <= i < k ==> |q[i]| % 2 == 0
    ensures |rest + Flat(q[..k + 1])| % 2 == 0
    decreases k
  {
    assert q[..k + 1][0] == q[0];
    assert q[..k + 1][1..] == q[1..][..k];
    if k > 0 {
      FlatEven(rest, q[1..], k - 1);
    } else {
      assert q[1..][..0] == [];
    }
  }

  /** The filter loop stays inside its message if the frames left in it are paired, and otherwise needs a
      message of odd length to come to an end. */
  predicate LoopEnds(c: Cursor) { |c.rest| % 2 == 0 || FirstOdd(c.queue) < |c.queue| }

  /** The messages it leaves in the queue ... */
  function Behind(c: Cursor): seq<Multipart>
    requires LoopEnds(c)
  {
    if |c.rest| % 2 == 0 then c.queue else c.queue[FirstOdd(c.queue) + 1..]
  }

  /** ... and the frames it takes: all those up to there, whoever sent them. */
  function Swallowed(c: Cursor): (fs: seq<Frame>)
    requires LoopEnds(c)
    ensures |fs| % 2 == 0
  {
    if |c.rest| % 2 == 0 then c.rest
    else
      FlatEven(c.rest, c.queue, FirstOdd(c.queue));
      c.rest + Flat(c.queue[..FirstOdd(c.queue) + 1])
  }

  lemma SwallowedPair(c: Cursor)
    requires |c.rest| >= 2 && LoopEnds(c)
    ensures var c' := c.(rest := c.rest[2..]);
      LoopEnds(c') && Behind(c') == Behind(c) && Swallowed(c) == c.rest[..2] + Swallowed(c')
  {
    var a, b, f := c.rest[..2], c.rest[2..], Flat(c.queue[..if |c.rest| % 2 == 0 then 0 else FirstOdd(c.queue) + 1]);
    assert c.rest == a + b;
    assert (a + b) + f == a + (b + f);
  }

  /** The last name of a message, with the first frame of the next as its value. */
  lemma SwallowedCross(c: Cursor)
    requires |c.rest| == 1 && c.queue != [] && LoopEnds(c)
    ensures var c' := Cursor(c.queue[0][1..], c.queue[1..]);
      LoopEnds(c') && Behind(c') == Behind(c) && Swallowed(c) == [c.rest[0], c.queue[0][0]] + Swallowed(c')
  {
    var q, k := c.queue, FirstOdd(c.queue);
    FlatFirst(q, k);
    var a, b, f := [c.rest[0], q[0][0]], q[0][1..], Flat(q[1..][..k]);
    assert c.rest + (q[0] + f) == a + (b + f);
  }

  lemma FlatFirst(q: seq<Multipart>, k: nat)
    requires k < |q|
    ensures Flat(q[..k + 1]) == q[0] + Flat(q[1..][..k])
    ensures k == 0 ==> Flat(q[1..][..k]) == []
  {
    assert q[..k + 1][1..] == q[1..][..k];
  }

  /** The filter loop in closed form. */
  lemma {:induction false} FiltersTake(c: Cursor)
    ensures NextFilters(c) ==
      if LoopEnds(c) then Read(ToFilters(Swallowed(c)), Cursor([], Behind(c))) else Halt(Waits)
    decreases |c.queue|, |c.rest|
  {
    if |c.rest| >= 2 {
      var c' := c.(rest := c.rest[2..]);
      assert c.rest[1..][1..] == c.rest[2..];
      FiltersTake(c');
      if LoopEnds(c) {
        SwallowedPair(c);
        FirstFilter(c.rest[0], c.rest[1], Swallowed(c'));
      }
    } else if |c.rest| == 1 && c.queue != [] {
      var c' := Cursor(c.queue[0][1..], c.queue[1..]);
      FiltersTake(c');
      if LoopEnds(c) {
        SwallowedCross(c);
        FirstFilter(c.rest[0], c.queue[0][0], Swallowed(c'));
      }
    }
  }

  lemma FirstFilter(name: Frame, val: Frame, fs: seq<Frame>)
    requires |fs| % 2 == 0
    ensures ToFilters([name, val] + fs) == [ColumnFilter(name, val)] + ToFilters(fs)
  {
    assert ([name, val] + fs)[2..] == fs;
  }

  /** The frames a turn reads without asking whether there are any. */
  function Unasked(o: Outcome): nat {
    if o.Refused? then 3
    else match o.request
      case Login(_) => 4
      case Logout(_) => 4
      case KeepAlive => 3
      case ByColumn(_, _, _, _) => 5
      case ByObjects(_, _, _, _) => 5
      case Skipped(cmd) => if IsByObjects(cmd) then 5 else 3
  }

  predicate ReadsFilters(o: Outcome) { o.Served? && o.request.ByColumn? }

  lemma HeaderAfter(q: seq<Multipart>)
    requires ReadHeader(Cursor([], q)).Read?
    ensures 3 <= Total(q) && ReadHeader(Cursor([], q)).next == Advance(q, 3)
  {
    FrameAfter(q, 0);
    FrameAfter(q, 1);
    FrameAfter(q, 2);
  }

  lemma IntAfter(q: seq<Multipart>, n: nat)
    requires n <= Total(q) && NextInt(Advance(q, n)).Read?
    ensures n + 1 <= Total(q) && NextInt(Advance(q, n)).next == Advance(q, n + 1)
  {
    FrameAfter(q, n);
  }

  lemma TableAfter(q: seq<Multipart>, cmd: int32, reqid: int32, eletype: int32)
    requires 5 <= Total(q) && (IsByColumn(cmd) || IsByObjects(cmd))
    requires ReadTable(Advance(q, 5), cmd, reqid, eletype).Read?
    ensures var t := ReadTable(Advance(q, 5), cmd, reqid, eletype);
      if t.value.ByColumn? then LoopEnds(Advance(q, 5)) && t.next.queue == Behind(Advance(q, 5))
      else t.next.queue == Advance(q, 5).queue && (t.value.Skipped? ==> IsByObjects(t.value.cmd))
    ensures var r := ReadTable(Advance(q, 5), cmd, reqid, eletype).value; r.ByColumn? || r.ByObjects? || r.Skipped?
  {
    if IsByColumn(cmd) {
      FiltersTake(Advance(q, 5));
    }
  }

  lemma RequestAfter(q: seq<Multipart>, router: Router, id: Id, cmd: int32)
    requires 3 <= Total(q) && ReadRequest(Advance(q, 3), cmd).Read?
    ensures var t := ReadRequest(Advance(q, 3), cmd); var o := Served(router, id, t.value);
      && Unasked(o) <= Total(q)
      && var c := Advance(q, Unasked(o));
         if ReadsFilters(o) then LoopEnds(c) && t.next.queue == Behind(c) else t.next.queue == c.queue
  {
    if cmd != T_KEEPALIVE && (cmd == T_LOGIN || cmd == T_LOGOUT || IsByColumn(cmd) || IsByObjects(cmd)) {
      IntAfter(q, 3);
      if cmd != T_LOGIN && cmd != T_LOGOUT {
        IntAfter(q, 4);
        TableAfter(q, cmd, NextInt(Advance(q, 3)).value, NextInt(Advance(q, 4)).value);
      }
    }
  }

  /** How many messages one turn takes, whatever they are: those holding the frames that are read unasked
      and, for a request with filters that do not pair up there, all up to the next one of odd length.
      The next turn starts at the beginning of a message. */
  lemma OneTurn(s: Service, q: seq<Multipart>, time: int)
    requires Polled(s, Cursor([], q), time).Read?
    ensures var t := Polled(s, Cursor([], q), time);
      && Unasked(t.value) <= Total(q)
      && var c := Advance(q, Unasked(t.value));
         if ReadsFilters(t.value) then LoopEnds(c) && t.next == Cursor([], Behind(c))
         else t.next == Cursor([], c.queue)
  {
    HeaderAfter(q);
    var h := ReadHeader(Cursor([], q)).value;
    if Check(s, Message(h.router, h.id, h.cmd, time)).Reached? {
      RequestAfter(q, h.router, h.id, h.cmd);
    }
  }

  // ---------------------------------------------------------------------------
  // Turns that stay inside their message
  // ---------------------------------------------------------------------------

  lemma TableShrinks(c: Cursor, cmd: int32, reqid: int32, eletype: int32)
    ensures var t := ReadTable(c, cmd, reqid, eletype); t.Read? ==> |t.next.queue| <= |c.queue|
  {
    if IsByColumn(cmd) {
      FiltersTake(c);
    }
  }

  lemma TableWhole(c: Cursor, cmd: int32, reqid: int32, eletype: int32)
    requires IsByColumn(cmd)
    ensures var t := ReadTable(c, cmd, reqid, eletype);
      && (t.Read? && t.next.queue == c.queue <==> |c.rest| % 2 == 0 && KnownElement(eletype))
      && (t.Read? && t.next.queue == c.queue ==> t.value == ByColumn(cmd, reqid, eletype, ToFilters(c.rest)))
  {
    FiltersTake(c);
  }

  lemma RequestWhole(rest: seq<Frame>, q: seq<Multipart>, cmd: int32)
    ensures var t := ReadRequest(Cursor(rest, q), cmd);
      && (t.Read? && t.next.queue == q <==> Readable(cmd, rest))
      && (t.Read? && t.next.queue == q ==> t.value == Decode(cmd, rest))
  {
    if IsByColumn(cmd) || IsByObjects(cmd) {
      var c := Cursor(rest, q);
      if NextInt(c).Read? && NextInt(NextInt(c).next).Read? {
        var c' := NextInt(NextInt(c).next).next;
        var reqid, eletype := NextInt(c).value, NextInt(NextInt(c).next).value;
        TableShrinks(c', cmd, reqid, eletype);
        if |rest| >= 2 {
          TwoReads(rest, q);
          if IsByColumn(cmd) { TableWhole(c', cmd, reqid, eletype); }
        }
      }
    }
  }

  lemma TwoReads(rest: seq<Frame>, q: seq<Multipart>)
    requires |rest| >= 2
    ensures NextFrame(Cursor(rest, q)) == Read(rest[0], Cursor(rest[1..], q))
    ensures NextFrame(Cursor(rest[1..], q)) == Read(rest[1], Cursor(rest[2..], q))
    ensures forall i :: 2 <= i < |rest| ==> rest[2..][i - 2] == rest[i]
  {
  }

  lemma WholeHeader(m: Multipart, q: seq<Multipart>)
    ensures var t := ReadHeader(Cursor([], [m] + q));
      if |m| < 3 then t.Read? ==> |t.next.queue| < |q|
      else t == if |m[2]| < 4 then Halt(Broken)
                else Read(Header(m[0], m[1], Int32From(m[2][..4])), Cursor(m[3..], q))
  {
    assert ([m] + q)[1..] == q;
    assert NextFrame(Cursor([], [m] + q)) == Read(m[0], Cursor(m[1..], q));
    if |m| >= 3 {
      TwoReads(m[1..], q);
      assert m[1..][1..] == m[2..] && m[1..][2..] == m[3..];
    }
  }

  lemma DispatchWhole(s: Service, h: Header, rest: seq<Frame>, q: seq<Multipart>, time: int)
    ensures var t, v := Dispatch(s, h, Cursor(rest, q), time), Check(s, Message(h.router, h.id, h.cmd, time));
      && (t.Read? && t.next.queue == q <==> if v.Reached? then Readable(h.cmd, rest) else RefusalReadable(v, rest))
      && (t.Read? && t.next.queue == q ==>
            t.value == if v.Reached? then Served(h.router, h.id, Decode(h.cmd, rest))
                       else Refused(h.router, h.id, h.cmd, if rest == [] then 0 else Int32From(rest[0][..4]), v))
  {
    RequestWhole(rest, q, h.cmd);
  }

  lemma DispatchShrinks(s: Service, h: Header, c: Cursor, time: int)
    ensures var t := Dispatch(s, h, c, time); t.Read? ==> |t.next.queue| <= |c.queue|
  {
    if (IsByColumn(h.cmd) || IsByObjects(h.cmd)) && NextInt(c).Read? && NextInt(NextInt(c).next).Read? {
      TableShrinks(NextInt(NextInt(c).next).next, h.cmd, NextInt(c).value, NextInt(NextInt(c).next).value);
    }
  }

  /** A turn comes to its end with its own message, leaving all others, exactly when that message can be
      dealt with from its own frames; and then that is what it has done. */
  lemma WholeMessage(s: Service, m: Multipart, q: seq<Multipart>, time: int)
    ensures var t, o := Polled(s, Cursor([], [m] + q), time), Serve(s, m, time);
      && (o.Some? <==> t.Read? && t.next == Cursor([], q))
      && (o.Some? ==> t.value == o.value)
  {
    WholeHeader(m, q);
    if |m| < 3 {
      var t := ReadHeader(Cursor([], [m] + q));
      if t.Read? { DispatchShrinks(s, t.value, t.next, time); }
    } else if |m[2]| >= 4 {
      DispatchWhole(s, Header(m[0], m[1], Int32From(m[2][..4])), m[3..], q, time);
    }
  }

  lemma ColumnRequest(cmd: int32, reqid: int32, eletype: int32, fs: seq<Frame>, q: seq<Multipart>)
    requires IsByColumn(cmd)
    ensures ReadRequest(Cursor([Int32Bytes(reqid), Int32Bytes(eletype)] + fs, q), cmd)
            == ReadTable(Cursor(fs, q), cmd, reqid, eletype)
  {
    var rest := [Int32Bytes(reqid), Int32Bytes(eletype)] + fs;
    Int32RoundTrip(reqid);
    Int32RoundTrip(eletype);
    TwoReads(rest, q);
    assert rest[2..] == fs;
  }

  /** A turn put together from its header and the reading of its request. */
  lemma ReachedTurn(s: Service, c: Cursor, h: Header, c': Cursor, r: Reading<Request>, time: int)
    requires ReadHeader(c) == Read(h, c') && ReadRequest(c', h.cmd) == r
    requires Check(s, Message(h.router, h.id, h.cmd, time)).Reached?
    ensures Polled(s, c, time) ==
      if r.Halt? then Halt(r.stop) else Read(Served(h.router, h.id, r.value), Cursor([], r.next.queue))
  {
  }

  lemma ColumnHeader(router: Router, id: Id, cmd: int32, reqid: int32, eletype: int32,
                     fs: seq<Frame>, q: seq<Multipart>)
    ensures var m: Multipart := [router] + Head(id, cmd, reqid, eletype) + fs;
      ReadHeader(Cursor([], [m] + q))
      == Read(Header(router, id, cmd), Cursor([Int32Bytes(reqid), Int32Bytes(eletype)] + fs, q))
  {
    var m: Multipart := [router] + Head(id, cmd, reqid, eletype) + fs;
    WholeHeader(m, q);
    Int32RoundTrip(cmd);
    assert m[2][..4] == m[2] == Int32Bytes(cmd);
    assert m[3..] == [Int32Bytes(reqid), Int32Bytes(eletype)] + fs;
  }

  lemma ColumnTable(c: Cursor, cmd: int32, reqid: int32, eletype: int32)
    requires IsByColumn(cmd)
    ensures ReadTable(c, cmd, reqid, eletype) ==
      if !LoopEnds(c) then Halt(Waits)
      else if !KnownElement(eletype) then Halt(Broken)
      else Read(ByColumn(cmd, reqid, eletype, ToFilters(Swallowed(c))), Cursor([], Behind(c)))
  {
    FiltersTake(c);
  }

  /** Once it is accepted, a by-column request for a table that does not exist has no defined outcome. */
  lemma TableMustExist(s: Service, router: Router, id: Id, r: Request, q: seq<Multipart>, time: int)
    requires r.ByColumn? && IsByColumn(r.cmd) && Check(s, Message(router, id, r.cmd, time)).Reached?
    ensures Polled(s, Cursor([], [[router] + Frames(id, r)] + q), time) ==
      if KnownElement(r.eletype) then Read(Served(router, id, r), Cursor([], q)) else Halt(Broken)
  {
    var fs := FilterFrames(r.filters);
    HeadFrames(id, r, fs);
    assert [router] + Frames(id, r) == [router] + Head(id, r.cmd, r.reqid, r.eletype) + fs;
    FiltersRoundTrip(r.filters);
    ColumnTurn(s, Header(router, id, r.cmd), r.reqid, r.eletype, Cursor(fs, q), time);
  }

  /** What a turn makes of an accepted by-column request, whatever frames `c.rest` it has for filters and
      whatever messages `c.queue` are behind it. If the frames do not pair up, the messages behind, other
      clients' included, are taken for filters up to the first one of odd length, and none of them is
      served; without one the poll thread waits, serving nobody. No assertion notices. */
  lemma ColumnTurn(s: Service, h: Header, reqid: int32, eletype: int32, c: Cursor, time: int)
    requires IsByColumn(h.cmd) && Check(s, Message(h.router, h.id, h.cmd, time)).Reached?
    ensures var m: Multipart := [h.router] + Head(h.id, h.cmd, reqid, eletype) + c.rest;
      Polled(s, Cursor([], [m] + c.queue), time) ==
        if !LoopEnds(c) then Halt(Waits)
        else if !KnownElement(eletype) then Halt(Broken)
        else Read(Served(h.router, h.id, ByColumn(h.cmd, reqid, eletype, ToFilters(Swallowed(c)))),
                  Cursor([], Behind(c)))
  {
    var m: Multipart := [h.router] + Head(h.id, h.cmd, reqid, eletype) + c.rest;
    ColumnHeader(h.router, h.id, h.cmd, reqid, eletype, c.rest, c.queue);
    ColumnRequest(h.cmd, reqid, eletype, c.rest, c.queue);
    var body := Cursor([Int32Bytes(reqid), Int32Bytes(eletype)] + c.rest, c.queue);
    ReachedTurn(s, Cursor([], [m] + c.queue), h, body, ReadTable(c, h.cmd, reqid, eletype), time);
    ColumnTable(c, h.cmd, reqid, eletype);
  }

  /** The request id of a refused message: 0 without a frame for it; from the first four bytes of a longer
      frame for an unknown sender, where the other two refusals assert on the size. */
  lemma RefusalSizes(s: Service, h: Header, c: Cursor, time: int)
    requires !Check(s, Message(h.router, h.id, h.cmd, time)).Reached?
    ensures var t := Dispatch(s, h, c, time); var n := if c.rest == [] then 4 else |c.rest[0]|;
      && (t.Halt? <==> n < 4 || (n > 4 && h.id in s.cache))
      && (t.Halt? ==> t.stop == Broken)
      && (t.Read? ==> t.value.Refused? && t.next.queue == c.queue
                      && t.value.reqid == if c.rest == [] then 0 else Int32From(c.rest[0][..4]))
  {
  }

  /** Of frames longer than the struct a request by objects gets the front, so what it is served with are
      objects of exactly the table's size, one for each frame; a shorter frame has no defined outcome. */
  lemma ObjectsFit(c: Cursor, cmd: int32, reqid: int32, eletype: int32)
    requires IsByObjects(cmd) && KnownElement(eletype)
    ensures var t, size := ReadTable(c, cmd, reqid, eletype), ElementSize(eletype);
      && (t == Halt(Broken) <==> exists i :: 0 <= i < |c.rest| && |c.rest[i]| < size)
      && (t.Read? ==> t.value.ByObjects? && |t.value.objects| == |c.rest|)
      && (t.Read? ==> forall i :: 0 <= i < |c.rest| ==> |t.value.objects[i]| == size && t.value.objects[i] <= c.rest[i])
  {
  }

  // ---------------------------------------------------------------------------
  // The poll thread
  // ---------------------------------------------------------------------------

  /** The bound socket as the poll thread reads it. A method that reports a stop promises nothing else. */
  class RouterSocket {
    var rest: seq<Frame>
    var queue: seq<Multipart>

    ghost function At(): Cursor
      reads this
    {
      Cursor(rest, queue)
    }

    constructor (messages: seq<Multipart>)
      ensures At() == Cursor([], messages)
    {
      rest, queue := [], messages;
    }

    method Recv() returns (stop: Option<Stop>, frame: Frame)
      modifies this
      ensures Ended(stop, frame, At()) == NextFrame(old(At()))
    {
      if rest != [] {
        frame, rest := rest[0], rest[1..];
      } else if queue != [] {
        frame, rest, queue := queue[0][0], queue[0][1..], queue[1..];
      } else {
        return Some(Waits), [];
      }
      stop := None;
    }

    /** `skipRemainMFrame`, and the loop at `skip_label`. */
    method SkipRemainMFrame()
      modifies this
      ensures rest == [] && queue == old(queue)
    {
      while rest != []
        invariant queue == old(queue)
        decreases |rest|
      {
        var _, _ := Recv();
      }
    }

    /** For an `int`. */
    method RecvPodObject() returns (stop: Option<Stop>, value: int32)
      modifies this
      ensures Ended(stop, value, At()) == NextInt(old(At()))
    {
      var frame;
      stop, frame := Recv();
      if stop.Some? { return stop, 0; }
      if |frame| != 4 { return Some(Broken), 0; }
      value := Int32From(frame);
    }

    method RecvFilters() returns (stop: Option<Stop>, filters: seq<ColumnFilter>)
      modifies this
      ensures Ended(stop, filters, At()) == NextFilters(old(At()))
    {
      filters := [];
      ghost var c := At();
      AheadOfNone(NextFilters(c));
      while rest != []
        invariant NextFilters(c) == Ahead(filters, NextFilters(At()))
        decreases |queue|, |rest|
      {
        var name, val;
        stop, name := Recv();
        stop, val := Recv();
        if stop.Some? { return; }
        AheadStep(filters, ColumnFilter(name, val), NextFilters(At()));
        filters := filters + [ColumnFilter(name, val)];
      }
      stop := None;
      assert filters + [] == filters;
    }

    method RecvVecObject(size: nat) returns (stop: Option<Stop>, objects: seq<Frame>)
      modifies this
      ensures Ended(stop, objects, At()) == NextObjects(old(At()), size)
    {
      objects := [];
      ghost var whole := rest;
      while rest != []
        invariant |objects| + |rest| == |whole| && whole[|objects|..] == rest && queue == old(queue)
        invariant forall i :: 0 <= i < |objects| ==> |whole[i]| >= size && objects[i] == whole[i][..size]
        decreases |rest|
      {
        var _, frame := Recv();
        assert frame == whole[|objects|];
        if |frame| < size { return Some(Broken), []; }
        objects := objects + [frame[..size]];
      }
      stop := None;
      assert objects == ToObjects(whole, size);
    }
  }

  /** Filters read before those of a reading. */
  ghost function Ahead(fs: seq<ColumnFilter>, r: Reading<seq<ColumnFilter>>): Reading<seq<ColumnFilter>> {
    match r
    case Halt(w) => Halt(w)
    case Read(gs, c) => Read(fs + gs, c)
  }

  lemma AheadOfNone(r: Reading<seq<ColumnFilter>>)
    ensures Ahead([], r) == r
  {
    if r.Read? {
      assert [] + r.value == r.value;
    }
  }

  lemma AheadStep(fs: seq<ColumnFilter>, f: ColumnFilter, r: Reading<seq<ColumnFilter>>)
    ensures Ahead(fs, Ahead([f], r)) == Ahead(fs + [f], r)
  {
    if r.Read? {
      assert fs + ([f] + r.value) == (fs + [f]) + r.value;
    }
  }

  /** `onRecvCmd`: reading the body of an accepted command. */
  method OnRecvCmd(sock: RouterSocket, cmd: int32) returns (stop: Option<Stop>, r: Request)
    modifies sock
    ensures Ended(stop, r, sock.At()) == ReadRequest(old(sock.At()), cmd)
  {
    stop, r := None, Skipped(cmd);
    var reqid, eletype;
    if cmd == T_KEEPALIVE {
      r := KeepAlive;
    } else if cmd == T_LOGIN || cmd == T_LOGOUT {
      stop, reqid := sock.RecvPodObject();
      r := if cmd == T_LOGIN then Login(reqid) else Logout(reqid);
    } else if IsByColumn(cmd) || IsByObjects(cmd) {
      stop, reqid := sock.RecvPodObject();
      if stop.Some? { return; }
      stop, eletype := sock.RecvPodObject();
      if stop.Some? { return; }
      stop, r := OnTable(sock, cmd, reqid, eletype);
    }
  }

  method OnTable(sock: RouterSocket, cmd: int32, reqid: int32, eletype: int32)
    returns (stop: Option<Stop>, r: Request)
    modifies sock
    ensures Ended(stop, r, sock.At()) == ReadTable(old(sock.At()), cmd, reqid, eletype)
  {
    stop, r := None, Skipped(cmd);
    if IsByColumn(cmd) {
      var filters;
      stop, filters := sock.RecvFilters();
      if stop.None? && !KnownElement(eletype) { stop := Some(Broken); }
      r := ByColumn(cmd, reqid, eletype, filters);
    } else if KnownElement(eletype) {
      var objects;
      stop, objects := sock.RecvVecObject(ElementSize(eletype));
      r := ByObjects(cmd, reqid, eletype, objects);
    }
  }

  method RecvHeader(sock: RouterSocket) returns (stop: Option<Stop>, h: Header)
    modifies sock
    ensures Ended(stop, h, sock.At()) == ReadHeader(old(sock.At()))
  {
    h := Header([], [], 0);
    var router, id, raw;
    stop, router := sock.Recv();
    if stop.Some? { return; }
    stop, id := sock.Recv();
    if stop.Some? { return; }
    stop, raw := sock.Recv();
    if stop.Some? { return; }
    if |raw| < 4 { return Some(Broken), h; }
    h := Header(router, id, Int32From(raw[..4]));
  }

  /** The part of `pollFunc` that takes a message from the bound socket, through all its branches. */
  method PollOnce(sock: RouterSocket, service: DispatcherService, time: int)
    returns (stop: Option<Stop>, o: Outcome)
    modifies sock, service`m_mapClients
    ensures Ended(stop, o, sock.At()) == Polled(old(service.State()), old(sock.At()), time)
    ensures stop.None? ==> service.State() == OnMessage(old(service.State()), o.Event(time))
  {
    o := Served([], [], KeepAlive);
    var h;
    stop, h := RecvHeader(sock);
    if stop.Some? { return; }
    var verdict, _ := service.OnReceive(h.router, h.id, h.cmd, time);
    if verdict.Reached? {
      var r;
      RequestCmd(sock.At(), h.cmd);
      stop, r := OnRecvCmd(sock, h.cmd);
      if stop.Some? { return; }
      o := Served(h.router, h.id, r);
    } else {
      var reqid := 0;
      if sock.rest != [] {
        var _, frame := sock.Recv();
        if |frame| < 4 || (|frame| != 4 && !verdict.IdentifyError?) { return Some(Broken), o; }
        reqid := Int32From(frame[..4]);
      }
      o := Refused(h.router, h.id, h.cmd, reqid, verdict);
    }
    sock.SkipRemainMFrame();
  }

  lemma RequestCmd(c: Cursor, cmd: int32)
    ensures ReadRequest(c, cmd).Read? ==> Cmd(ReadRequest(c, cmd).value) == cmd
  {
  }
}

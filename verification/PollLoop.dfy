/** `pollFunc` turn by turn, cache refreshes and timer included, and the way of the clients' requests to it. */
module PollLoop {
  import opened Options
  import opened Sessions
  import opened Requests
  import opened Polling

  // ---------------------------------------------------------------------------
  // Turns of the loop
  // ---------------------------------------------------------------------------

  /** One request on its way: who sent it, through which router, and when it is read. */
  datatype Envelope = Envelope(router: Router, id: Id, request: Request, time: int) {
    function Event(): Event { Message(router, id, Cmd(request), time) }

    function Delivered(): (m: Multipart) { [router] + Frames(id, request) }
  }

  function Messages(es: seq<Envelope>): seq<Multipart> {
    if es == [] then [] else [es[0].Delivered()] + Messages(es[1..])
  }

  /** What a turn of the loop meets: its clock readings, the manager rows if the flag was up, and the message
      if there is one. */
  datatype Round<M> = Round(tnow: int, handler: int, recount: int, rows: Option<seq<Id>>, mail: Option<M>)

  function Mails<M>(rounds: seq<Round<M>>): seq<M> {
    if rounds == [] then []
    else (if rounds[0].mail.Some? then [rounds[0].mail.value] else []) + Mails(rounds[1..])
  }

  /** The turn as far as the sessions are concerned. */
  function TurnOf(r: Round<Envelope>): Turn {
    Turn(r.tnow, r.handler, r.recount,
         if r.rows.Some? then Some(set n | n in r.rows.value) else None,
         if r.mail.Some? then Some(r.mail.value.Event()) else None)
  }

  function Turns(rounds: seq<Round<Envelope>>): seq<Turn> {
    seq(|rounds|, i requires 0 <= i < |rounds| => TurnOf(rounds[i]))
  }

  /** What the loop itself knows of a turn beforehand: of the message, when it will read it. */
  function Timing(r: Round<Envelope>): Round<int> {
    Round(r.tnow, r.handler, r.recount, r.rows, if r.mail.Some? then Some(r.mail.value.time) else None)
  }

  predicate Proper(r: Round<Envelope>) { r.mail.Some? ==> Encodable(r.mail.value.request) }

  /** What the sender of `e` is entitled to, the sessions being in state `s`. */
  function Expected(s: Service, e: Envelope): Outcome
    requires Encodable(e.request)
  {
    var v := Check(s, e.Event());
    if v.Reached? then Served(e.router, e.id, e.request)
    else Refused(e.router, e.id, Cmd(e.request), if e.request.KeepAlive? then 0 else e.request.reqid, v)
  }

  /** The outcome of a turn: the refresh and the timer come before the message. */
  function Answer(l: Loop, r: Round<Envelope>): Option<Outcome>
    requires Proper(r)
  {
    if r.mail.Some? then Some(Expected(Ticked(l, TurnOf(r)), r.mail.value)) else None
  }

  lemma TurnExpected(s: Service, e: Envelope, q: seq<Multipart>)
    requires Encodable(e.request)
    ensures Polled(s, Cursor([], [e.Delivered()] + q), e.time) == Read(Expected(s, e), Cursor([], q))
    ensures Expected(s, e).Event(e.time) == e.Event()
  {
    RequestRoundTrip(s, e.router, e.id, e.request, e.time);
    WholeMessage(s, e.Delivered(), q, e.time);
  }

  /** A turn on an encoded request. */
  method PollRequest(sock: RouterSocket, service: DispatcherService, time: int, ghost e: Envelope,
                     ghost q: seq<Multipart>)
    returns (o: Outcome)
    requires sock.At() == Cursor([], [e.Delivered()] + q) && e.time == time && Encodable(e.request)
    modifies sock, service`m_mapClients
    ensures sock.At() == Cursor([], q)
    ensures o == Expected(old(service.State()), e) && service.State() == OnMessage(old(service.State()), e.Event())
  {
    TurnExpected(service.State(), e, q);
    var stop;
    stop, o := PollOnce(sock, service, time);
  }

  /** The start of a turn: the refresh if the flag was up, the timer if it is due. */
  method BeginTurn(service: DispatcherService, r: Round<int>, ghost t: Round<Envelope>)
    requires r == Timing(t)
    modifies service
    ensures service.State() == Ticked(old(service.PollState()), TurnOf(t))
    ensures service.trigtime == TurnLoop(old(service.PollState()), TurnOf(t)).trig
  {
    if r.rows.Some? {
      service.UpdManagerCache(r.rows.value);
    }
    if service.trigtime <= r.tnow {
      var _ := service.KaTimeHandle(r.handler);
      service.trigtime := r.recount + KA_PERIOD;
    }
  }

  /** A whole turn, with its message, if any, at the front of the socket's queue. */
  method PollTurn(sock: RouterSocket, service: DispatcherService, r: Round<int>, ghost t: Round<Envelope>,
                  ghost q: seq<Multipart>)
    returns (o: Option<Outcome>)
    requires r == Timing(t) && Proper(t)
    requires sock.At() == Cursor([], (if t.mail.Some? then [t.mail.value.Delivered()] else []) + q)
    modifies sock, service
    ensures sock.At() == Cursor([], q)
    ensures o == Answer(old(service.PollState()), t)
    ensures service.PollState() == TurnLoop(old(service.PollState()), TurnOf(t))
  {
    BeginTurn(service, r, t);
    if r.mail.Some? {
      var answer := PollRequest(sock, service, r.mail.value, t.mail.value, q);
      o := Some(answer);
    } else {
      assert [] + q == q;
      o := None;
    }
  }

  /** Each outcome is the one its turn owes, the loop being as the turns before have left it. */
  ghost predicate Answers(l: Loop, rounds: seq<Round<Envelope>>, os: seq<Option<Outcome>>) {
    |os| <= |rounds| && forall i :: 0 <= i < |os| ==>
      Proper(rounds[i]) && os[i] == Answer(RunLoop(l, Turns(rounds)[..i]), rounds[i])
  }

  lemma AnswersMore(l: Loop, rounds: seq<Round<Envelope>>, os: seq<Option<Outcome>>, o: Option<Outcome>)
    requires Answers(l, rounds, os) && |os| < |rounds| && Proper(rounds[|os|])
    requires o == Answer(RunLoop(l, Turns(rounds)[..|os|]), rounds[|os|])
    ensures Answers(l, rounds, os + [o])
  {
  }

  /** All turns have ended so, and sessions and timer have become `l'`. */
  ghost predicate AllAnswered(l: Loop, rounds: seq<Round<Envelope>>, os: seq<Option<Outcome>>, l': Loop) {
    |os| == |rounds| && Answers(l, rounds, os) && l' == RunLoop(l, Turns(rounds))
  }

  lemma RoundStep(l: Loop, rounds: seq<Round<Envelope>>, i: nat)
    requires i < |rounds|
    ensures var q := Messages(Mails(rounds[i + 1..]));
      Messages(Mails(rounds[i..])) == (if rounds[i].mail.Some? then [rounds[i].mail.value.Delivered()] else []) + q
    ensures RunLoop(l, Turns(rounds)[..i + 1]) == TurnLoop(RunLoop(l, Turns(rounds)[..i]), TurnOf(rounds[i]))
  {
    assert rounds[i..][1..] == rounds[i + 1..];
    MessagesAppend(if rounds[i].mail.Some? then [rounds[i].mail.value] else [], Mails(rounds[i + 1..]));
    RunLoopSnoc(l, Turns(rounds), i);
  }

  lemma MessagesAppend(a: seq<Envelope>, b: seq<Envelope>)
    requires |a| <= 1
    ensures Messages(a + b) == (if a == [] then [] else [a[0].Delivered()]) + Messages(b)
  {
    if a == [] {
      assert a + b == b;
    } else {
      assert (a + b)[1..] == b;
    }
  }

  /** Any number of turns with any refreshes and timer expiries between encoded requests, whoever sent them:
      every turn ends exactly at the end of its message, and each request is served or refused with its own
      content, as cache, sessions and timer stand at that moment. */
  method PollFunc(sock: RouterSocket, service: DispatcherService, rounds: seq<Round<int>>,
                  ghost ts: seq<Round<Envelope>>)
    returns (os: seq<Option<Outcome>>)
    requires sock.At() == Cursor([], Messages(Mails(ts)))
    requires |rounds| == |ts| && forall i :: 0 <= i < |ts| ==> rounds[i] == Timing(ts[i]) && Proper(ts[i])
    modifies sock, service
    ensures sock.At() == Cursor([], [])
    ensures AllAnswered(old(service.PollState()), ts, os, service.PollState())
  {
    os := [];
    ghost var l := service.PollState();
    assert ts[0..] == ts;
    for i := 0 to |rounds|
      invariant sock.At() == Cursor([], Messages(Mails(ts[i..]))) && |os| == i
      invariant service.PollState() == RunLoop(l, Turns(ts)[..i])
      invariant Answers(l, ts, os)
    {
      RoundStep(l, ts, i);
      var o := PollTurn(sock, service, rounds[i], ts[i], Messages(Mails(ts[i + 1..])));
      AnswersMore(l, ts, os, o);
      os := os + [o];
    }
    assert Turns(ts)[..|ts|] == Turns(ts);
  }

  /** What happened before the message of turn `i` of a loop whose timer was first due at `trig`. */
  function EventsBefore(trig: int, rounds: seq<Round<Envelope>>, i: nat): seq<Event>
    requires i < |rounds|
  {
    var before := Turns(rounds)[..i];
    LoopEvents(trig, before) + Opening(TrigAfter(trig, before), TurnOf(rounds[i]))
  }

  /** What a request comes to after these events, told from the events alone. */
  function Owed(events: seq<Event>, e: Envelope): Outcome
    requires Encodable(e.request)
  {
    var seat, cached := SeatOf(events, e.id), Cached(events, e.id);
    if Passes(seat, cached, e.Event()) then Served(e.router, e.id, e.request)
    else Refused(e.router, e.id, Cmd(e.request), if e.request.KeepAlive? then 0 else e.request.reqid,
                 if !cached then IdentifyError else if seat.Held? then MultiLogin else NoLogin)
  }

  ghost predicate OwedAt(trig: int, rounds: seq<Round<Envelope>>, i: nat, o: Option<Outcome>)
    requires i < |rounds|
  {
    var mail := rounds[i].mail;
    Proper(rounds[i]) && o == if mail.Some? then Some(Owed(EventsBefore(trig, rounds, i), mail.value)) else None
  }

  lemma OwedIsExpected(events: seq<Event>, e: Envelope)
    requires Encodable(e.request)
    ensures Expected(Sessions.Run(Sessions.Init(), events), e) == Owed(events, e)
  {
    SeatsAgree(events, e.id);
  }

  lemma TickedByEvents(trig: int, rounds: seq<Round<Envelope>>, i: nat)
    requires i < |rounds|
    ensures Ticked(RunLoop(Loop(Sessions.Init(), trig), Turns(rounds)[..i]), TurnOf(rounds[i]))
            == Sessions.Run(Sessions.Init(), EventsBefore(trig, rounds, i))
  {
    var l, before := Loop(Sessions.Init(), trig), Turns(rounds)[..i];
    LoopIsRun(l, before);
    OpeningRuns(RunLoop(l, before), TurnOf(rounds[i]));
    Sessions.RunAppend(l.service, LoopEvents(trig, before), Opening(TrigAfter(trig, before), TurnOf(rounds[i])));
  }

  /** Every outcome of a loop from its start is decided by the refreshes, timer expiries and messages before
      it: served exactly when the latest refresh found the sender and its router holds the session or, for
      a login or keep-alive, nobody does. */
  lemma OutcomesDecided(trig: int, rounds: seq<Round<Envelope>>, os: seq<Option<Outcome>>, l': Loop)
    requires AllAnswered(Loop(Sessions.Init(), trig), rounds, os, l')
    ensures forall i :: 0 <= i < |rounds| ==> OwedAt(trig, rounds, i, os[i])
  {
    forall i | 0 <= i < |rounds|
      ensures OwedAt(trig, rounds, i, os[i])
    {
      if rounds[i].mail.Some? {
        TickedByEvents(trig, rounds, i);
        OwedIsExpected(EventsBefore(trig, rounds, i), rounds[i].mail.value);
      }
    }
  }

  // ---------------------------------------------------------------------------
  // From the clients' calls to the outcomes
  // ---------------------------------------------------------------------------

  type Streams = map<Router, seq<Multipart>>
  type Logs = map<Router, seq<Sent>>

  /** A message that arrives: the one of a client's call number `call`, read at `time`. Every call sends on a
      socket of its own, so nothing is said about the order. */
  datatype Arrival = Arrival(router: Router, call: nat, time: int)

  predicate Sends<T>(m: map<Router, seq<T>>, a: Arrival) { a.router in m && a.call < |m[a.router]| }

  predicate AllSent<T>(m: map<Router, seq<T>>, rounds: seq<Round<Arrival>>) {
    forall i :: 0 <= i < |rounds| && rounds[i].mail.Some? ==> Sends(m, rounds[i].mail.value)
  }

  function EnvelopeOf(logs: Logs, a: Arrival): Envelope
    requires Sends(logs, a)
  {
    var s := logs[a.router][a.call];
    Envelope(a.router, s.id, s.request, a.time)
  }

  /** The same turns with the requests in place. */
  function Resolved(logs: Logs, rounds: seq<Round<Arrival>>): seq<Round<Envelope>>
    requires AllSent(logs, rounds)
  {
    seq(|rounds|, i requires 0 <= i < |rounds| =>
      var r := rounds[i];
      Round(r.tnow, r.handler, r.recount, r.rows,
            if r.mail.Some? then Some(EnvelopeOf(logs, r.mail.value)) else None))
  }

  /** What the ROUTER socket receives: the messages with the router frame in front. */
  function Arrivals(streams: Streams, rounds: seq<Round<Arrival>>): seq<Multipart>
    requires AllSent(streams, rounds)
  {
    if rounds == [] then []
    else
      var m := rounds[0].mail;
      assert AllSent(streams, rounds[1..]);
      (if m.Some? then [[m.value.router] + streams[m.value.router][m.value.call]] else [])
      + Arrivals(streams, rounds[1..])
  }

  ghost predicate Carries(streams: Streams, logs: Logs) {
    streams.Keys == logs.Keys && forall r :: r in logs ==> streams[r] == Wires(logs[r])
  }

  lemma CarriesSent(streams: Streams, logs: Logs, rounds: seq<Round<Arrival>>)
    requires Carries(streams, logs) && AllSent(logs, rounds)
    ensures AllSent(streams, rounds)
  {
  }

  lemma {:induction false} ArrivalsAreMessages(streams: Streams, logs: Logs, rounds: seq<Round<Arrival>>)
    requires Carries(streams, logs) && AllSent(logs, rounds) && AllSent(streams, rounds)
    ensures Arrivals(streams, rounds) == Messages(Mails(Resolved(logs, rounds)))
    decreases |rounds|
  {
    if rounds != [] {
      var rest := rounds[1..];
      assert AllSent(logs, rest) && AllSent(streams, rest);
      ArrivalsAreMessages(streams, logs, rest);
      assert Resolved(logs, rounds)[1..] == Resolved(logs, rest);
      var m := rounds[0].mail;
      MessagesAppend(if m.Some? then [EnvelopeOf(logs, m.value)] else [], Mails(Resolved(logs, rest)));
    }
  }

  ghost predicate AllEncodable(log: seq<Sent>) {
    forall i :: 0 <= i < |log| ==> Encodable(log[i].request)
  }

  ghost function LogsOf(clients: map<Router, DispatcherManager>): Logs
    reads clients.Values
  {
    map r | r in clients :: clients[r].log
  }

  /** What ZeroMQ makes of the parts each client has sent. */
  method Assembled(clients: map<Router, DispatcherManager>) returns (streams: Streams)
    requires forall r :: r in clients ==> clients[r].Valid()
    ensures Carries(streams, LogsOf(clients))
  {
    streams := map r | r in clients :: Assemble(clients[r].sent, []).0;
    forall r | r in clients
      ensures streams[r] == Wires(clients[r].log)
    {
      StreamAssembles(Wires(clients[r].log));
    }
  }

  method ServeStreams(streams: Streams, rounds: seq<Round<Arrival>>, service: DispatcherService, ghost logs: Logs)
    returns (os: seq<Option<Outcome>>)
    requires Carries(streams, logs) && (forall r :: r in logs ==> AllEncodable(logs[r])) && AllSent(logs, rounds)
    modifies service
    ensures AllAnswered(old(service.PollState()), Resolved(logs, rounds), os, service.PollState())
  {
    CarriesSent(streams, logs, rounds);
    ArrivalsAreMessages(streams, logs, rounds);
    var sock := new RouterSocket(Arrivals(streams, rounds));
    var timings := seq(|rounds|, i requires 0 <= i < |rounds| =>
      var r := rounds[i];
      Round(r.tnow, r.handler, r.recount, r.rows, if r.mail.Some? then Some(r.mail.value.time) else None));
    os := PollFunc(sock, service, timings, Resolved(logs, rounds));
  }

  /** The whole way of a request. Any number of clients have made any calls; the parts of each call assemble
      to its message, and the messages arrive in any order, the calls of one client included, with any
      refreshes and timer expiries between them. Then every request is served or refused as it was made. */
  method ServeClients(clients: map<Router, DispatcherManager>, rounds: seq<Round<Arrival>>, service: DispatcherService)
    returns (os: seq<Option<Outcome>>)
    requires forall r :: r in clients ==> clients[r].Valid() && AllEncodable(clients[r].log)
    requires AllSent(LogsOf(clients), rounds)
    modifies service
    ensures AllAnswered(old(service.PollState()), Resolved(old(LogsOf(clients)), rounds), os, service.PollState())
  {
    ghost var logs := LogsOf(clients);
    var streams := Assembled(clients);
    os := ServeStreams(streams, rounds, service, logs);
  }
}

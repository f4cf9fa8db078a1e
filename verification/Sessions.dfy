/** Login sessions in `DispatcherService`: identity check, login check, single login point, keep-alive
    expiry. Times are milliseconds of one monotone clock. */
module Sessions {

  import opened Bytes
  import opened Options

  type Id = seq<byte>
  type Router = seq<byte>

  const T_LOGIN := 1
  const T_LOGOUT := 2
  const T_KEEPALIVE := 3

  const MINUTE := 60_000
  const KA_PERIOD := 10_000

  /** `DispatcherClient`. */
  datatype Client = Client(router: Router, login: bool, lastRead: int)

  datatype Service = Service(clients: map<Id, Client>, cache: set<Id>)

  datatype Event =
    | Message(router: Router, id: Id, cmd: int, time: int)
    | Tick(now: int)               // katimeHandle
    | Refresh(names: set<Id>)      // updManagerCache

  datatype Verdict = IdentifyError | NoLogin | MultiLogin | Reached

  function ClientOf(s: Service, m: Event): Client
    requires m.Message?
  {
    if m.id in s.clients then s.clients[m.id] else Client([], false, m.time)
  }

  /** The three checks in front of `onRecvCmd`. */
  function Check(s: Service, m: Event): Verdict
    requires m.Message?
  {
    var c := ClientOf(s, m);
    if m.id !in s.cache then IdentifyError
    else if !c.login && m.cmd != T_LOGIN && m.cmd != T_KEEPALIVE then NoLogin
    else if c.login && c.router != m.router then MultiLogin
    else Reached
  }

  /** `onRecvCmd` as far as it concerns the session. */
  function Handle(c: Client, cmd: int): Client {
    if cmd == T_LOGIN then c.(login := true)
    else if cmd == T_LOGOUT then c.(login := false)
    else c
  }

  function OnMessage(s: Service, m: Event): Service
    requires m.Message?
  {
    var c := ClientOf(s, m);
    match Check(s, m)
    case IdentifyError => s
    case NoLogin => s.(clients := s.clients[m.id := c])
    case MultiLogin => s.(clients := s.clients[m.id := c])
    case Reached =>
      var c' := Handle(c.(router := m.router, lastRead := m.time), m.cmd);
      s.(clients := s.clients[m.id := c'])
  }

  /** `EResponseErrType` of a refusal. */
  function ErrorOf(v: Verdict): int32 {
    match v
    case Reached => 0
    case IdentifyError => 2
    case NoLogin => 3
    case MultiLogin => 4
  }

  /** The error id the poll thread answers with: a refusal's, or that of `onReqLogin` and `onReqLogout`. */
  function Reply(s: Service, m: Event): int32
    requires m.Message?
  {
    var v := Check(s, m);
    if v.Reached? && m.cmd == T_LOGIN && ClientOf(s, m).login then 1 else ErrorOf(v)
  }

  function Expire(c: Client, now: int): Client {
    if c.lastRead + MINUTE < now then c.(login := false) else c
  }

  function OnTick(s: Service, now: int): Service {
    s.(clients := map id | id in s.clients :: Expire(s.clients[id], now))
  }

  function Apply(s: Service, e: Event): Service {
    match e
    case Message(_, _, _, _) => OnMessage(s, e)
    case Tick(now) => OnTick(s, now)
    case Refresh(names) => s.(cache := names)
  }

  function Run(s: Service, events: seq<Event>): Service
    decreases |events|
  {
    if events == [] then s else Run(Apply(s, events[0]), events[1..])
  }

  function Init(): Service { Service(map[], {}) }

  // ---------------------------------------------------------------------------
  // Single login point
  // ---------------------------------------------------------------------------

  /** Who holds the session of a manager, and when that router was last heard: told from the events alone,
      with no record of clients. */
  datatype Seat = Free | Held(router: Router, last: int)

  function Front(events: seq<Event>): seq<Event>
    requires events != []
  {
    events[..|events| - 1]
  }

  function Last(events: seq<Event>): Event
    requires events != []
  {
    events[|events| - 1]
  }

  /** The latest refresh found the name. */
  predicate Cached(events: seq<Event>, id: Id)
    decreases |events|
  {
    events != [] && if Last(events).Refresh? then id in Last(events).names else Cached(Front(events), id)
  }

  /** Known senders get through from the router that holds their session, and with a login or a keep-alive
      when nobody does. */
  predicate Passes(seat: Seat, cached: bool, m: Event)
    requires m.Message?
  {
    cached && if seat.Held? then seat.router == m.router else m.cmd == T_LOGIN || m.cmd == T_KEEPALIVE
  }

  function SeatAfter(seat: Seat, cached: bool, e: Event, id: Id): Seat {
    match e
    case Refresh(_) => seat
    case Tick(now) => if seat.Held? && seat.last + MINUTE < now then Free else seat
    case Message(router, who, cmd, time) =>
      if who != id || !Passes(seat, cached, e) then seat
      else if cmd == T_LOGIN then Held(router, time)
      else if cmd == T_LOGOUT then Free
      else if seat.Held? then Held(router, time)
      else Free
  }

  function SeatOf(events: seq<Event>, id: Id): Seat
    decreases |events|
  {
    if events == [] then Free
    else SeatAfter(SeatOf(Front(events), id), Cached(Front(events), id), Last(events), id)
  }

  /** What flag, router and time stamp of the stored client amount to. */
  function SeatIn(s: Service, id: Id): Seat {
    if id in s.clients && s.clients[id].login then Held(s.clients[id].router, s.clients[id].lastRead) else Free
  }

  /** The router a manager's client record names and when it was last heard, logged in or not: those of the
      latest message that passed, or no router and the time of the first message if none has. */
  function HeardOf(events: seq<Event>, id: Id): Option<(Router, int)>
    decreases |events|
  {
    if events == [] then None
    else
      var before, e := HeardOf(Front(events), id), Last(events);
      if e.Message? && e.id == id && Cached(Front(events), id) then
        if Passes(SeatOf(Front(events), id), true, e) then Some((e.router, e.time))
        else if before.None? then Some(([], e.time)) else before
      else before
  }

  function HeardIn(s: Service, id: Id): Option<(Router, int)> {
    if id in s.clients then Some((s.clients[id].router, s.clients[id].lastRead)) else None
  }

  lemma StepHeard(s: Service, e: Event, id: Id)
    ensures HeardIn(Apply(s, e), id) ==
      if e.Message? && e.id == id && id in s.cache then
        if Passes(SeatIn(s, id), true, e) then Some((e.router, e.time))
        else if HeardIn(s, id).None? then Some(([], e.time)) else HeardIn(s, id)
      else HeardIn(s, id)
  {
  }

  lemma StepSeat(s: Service, e: Event, id: Id)
    ensures SeatIn(Apply(s, e), id) == SeatAfter(SeatIn(s, id), id in s.cache, e, id)
  {
  }

  lemma {:induction false} RunSnoc(s: Service, events: seq<Event>, e: Event)
    ensures Run(s, events + [e]) == Apply(Run(s, events), e)
    decreases |events|
  {
    if events == [] {
      var one := [e];
      assert events + [e] == one && one[1..] == [];
      assert Run(Apply(s, e), []) == Apply(s, e);
    } else {
      assert (events + [e])[1..] == events[1..] + [e];
      RunSnoc(Apply(s, events[0]), events[1..], e);
    }
  }

  /** After any run, the stored client of every manager is what the events say, and so is the cache. */
  lemma {:induction false} SeatsAgree(events: seq<Event>, id: Id)
    ensures SeatIn(Run(Init(), events), id) == SeatOf(events, id)
    ensures id in Run(Init(), events).cache <==> Cached(events, id)
    ensures HeardIn(Run(Init(), events), id) == HeardOf(events, id)
    decreases |events|
  {
    if events != [] {
      var front, e := Front(events), Last(events);
      assert events == front + [e];
      SeatsAgree(front, id);
      RunSnoc(Init(), front, e);
      StepSeat(Run(Init(), front), e, id);
      StepHeard(Run(Init(), front), e, id);
    }
  }

  /** After any run a message reaches its handler exactly when it passes, and the answer says why not: 2 for
      a name not cached, 3 when nobody holds the session, 4 when another router does. A login is answered
      with success exactly when nobody held the session, and with 1 when its own router did. */
  lemma SingleLoginPoint(events: seq<Event>, m: Event)
    requires m.Message?
    ensures var s, seat, cached := Run(Init(), events), SeatOf(events, m.id), Cached(events, m.id);
      && (Check(s, m).Reached? <==> Passes(seat, cached, m))
      && Reply(s, m) ==
           if !cached then 2
           else if seat.Held? && seat.router != m.router then 4
           else if seat.Free? && m.cmd != T_LOGIN && m.cmd != T_KEEPALIVE then 3
           else if seat.Held? && m.cmd == T_LOGIN then 1
           else 0
  {
    SeatsAgree(events, m.id);
  }

  /** After a login that was let through, its router is let through with anything and every other router is
      turned away. */
  lemma LoginHolds(events: seq<Event>, m: Event, next: Event)
    requires m.Message? && next.Message? && next.id == m.id
    requires m.cmd == T_LOGIN && Check(Run(Init(), events), m).Reached?
    ensures Check(Run(Init(), events + [m]), next) == if next.router == m.router then Reached else MultiLogin
  {
    RunSnoc(Init(), events, m);
  }

  /** After a logout that was let through, every router can log in, and nothing but a login or a keep-alive
      is let through. */
  lemma LogoutFrees(events: seq<Event>, m: Event, next: Event)
    requires m.Message? && next.Message? && next.id == m.id
    requires m.cmd == T_LOGOUT && Check(Run(Init(), events), m).Reached?
    ensures var s := Run(Init(), events + [m]);
      && Check(s, next) == (if next.cmd == T_LOGIN || next.cmd == T_KEEPALIVE then Reached else NoLogin)
      && Reply(s, next) == (if next.cmd == T_LOGIN || next.cmd == T_KEEPALIVE then 0 else 3)
  {
    RunSnoc(Init(), events, m);
  }

  // ---------------------------------------------------------------------------
  // Keep-alive: the poll loop and its timer
  // ---------------------------------------------------------------------------

  /** One turn of `pollFunc`: the clock as read for the timer test, by the handler, and when the timer is
      set again; a cache refresh and a message if there was one. */
  datatype Turn = Turn(tnow: int, handler: int, recount: int, refresh: Option<set<Id>>, message: Option<Event>)

  datatype Loop = Loop(service: Service, trig: int)

  function Refreshed(s: Service, t: Turn): Service {
    if t.refresh.Some? then Apply(s, Refresh(t.refresh.value)) else s
  }

  predicate Fires(l: Loop, t: Turn) { l.trig <= t.tnow }

  function Ticked(l: Loop, t: Turn): Service {
    var s := Refreshed(l.service, t);
    if Fires(l, t) then OnTick(s, t.handler) else s
  }

  function TurnLoop(l: Loop, t: Turn): Loop {
    var s := Ticked(l, t);
    Loop(if t.message.Some? then Apply(s, t.message.value) else s,
         if Fires(l, t) then t.recount + KA_PERIOD else l.trig)
  }

  /** Clock readings in order, at most `d` from one timer test to the next and `e` from a timer test to
      the handler's own reading. */
  ghost predicate Timed(ts: seq<Turn>, d: int, e: int) {
    && (forall i :: 0 <= i < |ts| ==> ts[i].tnow <= ts[i].handler <= ts[i].tnow + e && ts[i].handler <= ts[i].recount)
    && (forall i :: 0 <= i < |ts| && ts[i].message.Some? ==>
          ts[i].message.value.Message? && ts[i].recount <= ts[i].message.value.time)
    && (forall i :: 0 <= i < |ts| - 1 ==> ts[i].recount <= ts[i + 1].tnow <= ts[i].tnow + d)
    && (forall i :: 0 <= i < |ts| - 1 && ts[i].message.Some? ==> ts[i].message.value.time <= ts[i + 1].tnow)
  }

  ghost predicate LoggedIn(s: Service, id: Id, last: int) {
    id in s.clients && s.clients[id].login && s.clients[id].lastRead == last
  }

  ghost predicate Accepted(l: Loop, t: Turn, id: Id) {
    t.message.Some? && t.message.value.Message? && t.message.value.id == id
    && Check(Ticked(l, t), t.message.value).Reached?
  }

  /** The handler of this turn, if it runs, leaves the session of `id` logged in. */
  predicate Lasts(l: Loop, t: Turn, id: Id) {
    id in Ticked(l, t).clients && Ticked(l, t).clients[id].login
  }

  /** No message for `id` gets past the checks while its session lasts; after that anything may happen. */
  ghost predicate Silent(l: Loop, ts: seq<Turn>, id: Id)
    decreases |ts|
  {
    ts != [] && Lasts(l, ts[0], id) ==> !Accepted(l, ts[0], id) && Silent(TurnLoop(l, ts[0]), ts[1..], id)
  }

  lemma TimedTail(ts: seq<Turn>, d: int, e: int)
    requires Timed(ts, d, e) && ts != []
    ensures Timed(ts[1..], d, e)
  {
    assert forall i :: 0 <= i < |ts| - 1 ==> ts[1..][i] == ts[i + 1];
  }

  /** The handler ends the session exactly when it runs more than a minute after the last message; a turn
      that does not, and accepts no message, leaves the session as it was. */
  lemma SilentTurn(l: Loop, t: Turn, id: Id, last: int)
    requires LoggedIn(l.service, id, last)
    requires t.message.Some? ==> t.message.value.Message?
    ensures id in Ticked(l, t).clients
    ensures Lasts(l, t, id) <==> !(Fires(l, t) && last + MINUTE < t.handler)
    ensures Lasts(l, t, id) && !Accepted(l, t, id) ==> LoggedIn(TurnLoop(l, t).service, id, last)
  {
  }

  /** `i` is the turn whose handler ends the session. */
  lemma {:induction false} SilentExpires(l: Loop, ts: seq<Turn>, id: Id, last: int, d: int, e: int)
    returns (i: nat)
    requires Timed(ts, d, e) && d >= 0 && e >= 0
    requires LoggedIn(l.service, id, last) && Silent(l, ts, id)
    requires l.trig <= last + MINUTE + KA_PERIOD + d
    requires ts != [] && ts[0].tnow < last + MINUTE + KA_PERIOD + 2 * d
    requires ts[|ts| - 1].tnow >= last + MINUTE + KA_PERIOD + d
    ensures i < |ts| && ExpiresAt(l, ts, id, i)
    ensures ts[i].handler < last + MINUTE + KA_PERIOD + 2 * d + e
    decreases |ts|
  {
    SilentTurn(l, ts[0], id, last);
    if !Lasts(l, ts[0], id) {
      i := 0;
    } else {
      TimedTail(ts, d, e);
      i := SilentExpires(TurnLoop(l, ts[0]), ts[1..], id, last, d, e);
      i := i + 1;
    }
  }

  /** The handler of turn `i` finds the session logged in and logs it out. */
  ghost predicate ExpiresAt(l: Loop, ts: seq<Turn>, id: Id, i: nat)
    requires i < |ts|
    decreases |ts|
  {
    if i == 0 then
      && id in l.service.clients && l.service.clients[id].login
      && id in Ticked(l, ts[0]).clients && !Lasts(l, ts[0], id)
    else ExpiresAt(TurnLoop(l, ts[0]), ts[1..], id, i - 1)
  }

  ghost function RunLoop(l: Loop, ts: seq<Turn>): Loop
    decreases |ts|
  {
    if ts == [] then l else RunLoop(TurnLoop(l, ts[0]), ts[1..])
  }

  /** The events of a turn before its message, in the order of the loop: refresh, then timer. */
  function Opening(trig: int, t: Turn): seq<Event> {
    (if t.refresh.Some? then [Refresh(t.refresh.value)] else []) + (if trig <= t.tnow then [Tick(t.handler)] else [])
  }

  function TurnEvents(trig: int, t: Turn): seq<Event> {
    Opening(trig, t) + if t.message.Some? then [t.message.value] else []
  }

  /** When the timer is due after these turns. */
  function TrigAfter(trig: int, ts: seq<Turn>): int
    decreases |ts|
  {
    if ts == [] then trig else TrigAfter(if trig <= ts[0].tnow then ts[0].recount + KA_PERIOD else trig, ts[1..])
  }

  function LoopEvents(trig: int, ts: seq<Turn>): seq<Event>
    decreases |ts|
  {
    if ts == [] then []
    else TurnEvents(trig, ts[0])
         + LoopEvents(if trig <= ts[0].tnow then ts[0].recount + KA_PERIOD else trig, ts[1..])
  }

  lemma {:induction false} RunAppend(s: Service, a: seq<Event>, b: seq<Event>)
    ensures Run(s, a + b) == Run(Run(s, a), b)
    decreases |a|
  {
    if a == [] {
      assert a + b == b;
    } else {
      assert (a + b)[1..] == a[1..] + b;
      RunAppend(Apply(s, a[0]), a[1..], b);
    }
  }

  lemma RunOne(s: Service, e: Event)
    ensures Run(s, [e]) == Apply(s, e)
  {
    assert [] + [e] == [e];
    RunSnoc(s, [], e);
  }

  lemma OpeningRuns(l: Loop, t: Turn)
    ensures Ticked(l, t) == Run(l.service, Opening(l.trig, t))
  {
    var refresh: seq<Event> := if t.refresh.Some? then [Refresh(t.refresh.value)] else [];
    var tick: seq<Event> := if l.trig <= t.tnow then [Tick(t.handler)] else [];
    RunAppend(l.service, refresh, tick);
    if t.refresh.Some? { RunOne(l.service, Refresh(t.refresh.value)); }
    RunOne(Refreshed(l.service, t), Tick(t.handler));
  }

  lemma TurnRuns(l: Loop, t: Turn)
    ensures TurnLoop(l, t).service == Run(l.service, TurnEvents(l.trig, t))
  {
    OpeningRuns(l, t);
    RunAppend(l.service, Opening(l.trig, t), if t.message.Some? then [t.message.value] else []);
    if t.message.Some? { RunOne(Ticked(l, t), t.message.value); }
  }

  /** The loop does to cache and sessions what its turns' refreshes, timer expiries and messages do one after
      the other. */
  lemma {:induction false} LoopIsRun(l: Loop, ts: seq<Turn>)
    ensures RunLoop(l, ts).service == Run(l.service, LoopEvents(l.trig, ts))
    ensures RunLoop(l, ts).trig == TrigAfter(l.trig, ts)
    decreases |ts|
  {
    if ts != [] {
      var l' := TurnLoop(l, ts[0]);
      TurnRuns(l, ts[0]);
      LoopIsRun(l', ts[1..]);
      RunAppend(l.service, TurnEvents(l.trig, ts[0]), LoopEvents(l'.trig, ts[1..]));
    }
  }

  lemma {:induction false} RunLoopSnoc(l: Loop, ts: seq<Turn>, i: nat)
    requires i < |ts|
    ensures RunLoop(l, ts[..i + 1]) == TurnLoop(RunLoop(l, ts[..i]), ts[i])
    decreases i
  {
    assert ts[..i + 1][0] == ts[0];
    if i == 0 {
      assert ts[..1][1..] == [] && ts[..0] == [];
      assert RunLoop(TurnLoop(l, ts[0]), []) == TurnLoop(l, ts[0]);
    } else {
      assert ts[..i + 1][1..] == ts[1..][..i] && ts[..i][1..] == ts[1..][..i - 1];
      RunLoopSnoc(TurnLoop(l, ts[0]), ts[1..], i - 1);
    }
  }

  /** At every turn of every run the timer is due within its period. */
  lemma {:induction false} TimerArmed(l: Loop, ts: seq<Turn>, k: nat, d: int, e: int)
    requires Timed(ts, d, e) && k < |ts| && l.trig <= ts[0].tnow + KA_PERIOD
    ensures RunLoop(l, ts[..k]).trig <= ts[k].tnow + KA_PERIOD
    decreases k
  {
    if k > 0 {
      TimedTail(ts, d, e);
      TimerArmed(TurnLoop(l, ts[0]), ts[1..], k - 1, d, e);
      assert ts[..k][1..] == ts[1..][..k - 1];
    }
  }

  /** Keep-alive bound: a session that sends nothing after the message accepted in the first of these
      turns is logged out by the timer in less than 70 s, two turns and the delay `e` between the two
      clock readings of a turn, provided the loop runs that long. */
  lemma KeepAliveBound(l: Loop, ts: seq<Turn>, id: Id, d: int, e: int) returns (i: nat)
    requires Timed(ts, d, e) && d >= 0 && e >= 0 && |ts| >= 2 && l.trig <= ts[0].tnow + KA_PERIOD
    requires Accepted(l, ts[0], id)
    requires var last := ts[0].message.value.time;
      && LoggedIn(TurnLoop(l, ts[0]).service, id, last)
      && Silent(TurnLoop(l, ts[0]), ts[1..], id)
      && ts[|ts| - 1].tnow >= last + MINUTE + KA_PERIOD + d
    ensures 0 < i < |ts| && ExpiresAt(l, ts, id, i)
    ensures ts[i].handler < ts[0].message.value.time + MINUTE + KA_PERIOD + 2 * d + e
  {
    TimedTail(ts, d, e);
    i := SilentExpires(TurnLoop(l, ts[0]), ts[1..], id, ts[0].message.value.time, d, e);
    i := i + 1;
  }

  // ---------------------------------------------------------------------------
  // The bound is the best possible
  // ---------------------------------------------------------------------------

  /** A login at time 0, then turns one clock unit apart. The handler runs at 60 s, one unit too early,
      and its turn is as long as turns get; so is the one before the next run, and there the handler reads
      its clock as late as it may. */
  function WorstTurn(id: Id, d: int, e: int, i: nat): Turn {
    if i == 0 then Turn(0, 0, 0, None, Some(Message([], id, T_LOGIN, 0)))
    else if i < MINUTE then Turn(i, i, i, None, None)
    else if i == MINUTE then Turn(i, i, i + d, None, None)
    else if i <= MINUTE + KA_PERIOD then Turn(i - 1 + d, i - 1 + d, i - 1 + d, None, None)
    else
      var tnow := MINUTE + KA_PERIOD - 1 + 2 * d;
      Turn(tnow, tnow + e, tnow + e, None, None)
  }

  const WORST_LEN: nat := MINUTE + KA_PERIOD + 2

  function WorstRun(id: Id, d: int, e: int): (ts: seq<Turn>)
    ensures |ts| == WORST_LEN
  {
    seq(WORST_LEN, i requires 0 <= i => WorstTurn(id, d, e, i))
  }

  /** When the timer is due at the start of turn `i`. */
  function WorstTrig(d: int, i: nat): int {
    if i == 0 then KA_PERIOD
    else if i <= MINUTE then ((i - 1) / KA_PERIOD + 1) * KA_PERIOD
    else MINUTE + d + KA_PERIOD
  }

  function WorstStart(id: Id): Loop { Loop(Service(map[], {id}), KA_PERIOD) }

  lemma WorstTimed(id: Id, d: int, e: int)
    requires d >= 1 && e >= 0
    ensures Timed(WorstRun(id, d, e), d, e)
  {
  }

  lemma WorstTrigSteps(d: int, i: nat)
    requires 1 <= i <= MINUTE
    ensures WorstTrig(d, i) >= i
    ensures i < MINUTE ==> WorstTrig(d, i + 1) == if WorstTrig(d, i) == i then i + KA_PERIOD else WorstTrig(d, i)
    ensures i == MINUTE ==> WorstTrig(d, i) == i
  {
  }

  lemma WorstStep(l: Loop, id: Id, d: int, e: int, i: nat)
    requires 1 <= i <= MINUTE + KA_PERIOD && d >= 1 && e >= 0
    requires LoggedIn(l.service, id, 0) && l.trig == WorstTrig(d, i)
    ensures var t := WorstTurn(id, d, e, i);
      Lasts(l, t, id) && !Accepted(l, t, id) && LoggedIn(TurnLoop(l, t).service, id, 0)
      && TurnLoop(l, t).trig == WorstTrig(d, i + 1)
  {
    if i <= MINUTE { WorstTrigSteps(d, i); }
    SilentTurn(l, WorstTurn(id, d, e, i), id, 0);
  }

  lemma {:induction false} WorstFrom(l: Loop, id: Id, d: int, e: int, i: nat)
    requires 1 <= i < WORST_LEN && d >= 1 && e >= 0
    requires LoggedIn(l.service, id, 0) && l.trig == WorstTrig(d, i)
    ensures var ts := WorstRun(id, d, e)[i..];
      Silent(l, ts, id) && ExpiresAt(l, ts, id, WORST_LEN - 1 - i)
    decreases WORST_LEN - i
  {
    var ts := WorstRun(id, d, e)[i..];
    assert ts[0] == WorstTurn(id, d, e, i);
    if i == WORST_LEN - 1 {
      SilentTurn(l, ts[0], id, 0);
    } else {
      WorstStep(l, id, d, e, i);
      WorstFrom(TurnLoop(l, ts[0]), id, d, e, i + 1);
      assert ts[1..] == WorstRun(id, d, e)[i + 1..];
    }
  }

  /** For all turn lengths and reading delays there is a run that meets every hypothesis of the bound and
      ends its session at the last moment the bound allows. So 70 s and two turns are exceeded, by `e - 1`
      units, exactly when the two readings can be 2 units or more apart. */
  lemma KeepAliveBoundIsTight(id: Id, d: int, e: int)
    requires d >= 1 && e >= 0
    ensures var l, ts := WorstStart(id), WorstRun(id, d, e); var last := ts[0].message.value.time;
      && Timed(ts, d, e) && l.trig <= ts[0].tnow + KA_PERIOD && Accepted(l, ts[0], id)
      && LoggedIn(TurnLoop(l, ts[0]).service, id, last) && Silent(TurnLoop(l, ts[0]), ts[1..], id)
      && ts[|ts| - 1].tnow >= last + MINUTE + KA_PERIOD + d
      && ExpiresAt(l, ts, id, |ts| - 1)
      && ts[|ts| - 1].handler == last + MINUTE + KA_PERIOD + 2 * d + e - 1
  {
    var l, ts := WorstStart(id), WorstRun(id, d, e);
    WorstTimed(id, d, e);
    assert ts[0] == WorstTurn(id, d, e, 0);
    var l1 := TurnLoop(l, ts[0]);
    assert l1.service.clients == map[id := Client([], true, 0)];
    WorstFrom(l1, id, d, e, 1);
  }

  // ---------------------------------------------------------------------------
  // An attentive session
  // ---------------------------------------------------------------------------

  /** A message of the session itself, other than its logout. */
  predicate FromSession(t: Turn, id: Id, router: Router) {
    t.message.Some? && t.message.value.Message? && t.message.value.id == id && t.message.value.router == router
    && t.message.value.cmd != T_LOGOUT
  }

  predicate LogsOut(t: Turn, id: Id, router: Router) {
    t.message.Some? && t.message.value.Message? && t.message.value.id == id && t.message.value.router == router
    && t.message.value.cmd == T_LOGOUT
  }

  /** The session's messages are never more than a minute apart: at every turn one is still to come, no
      later than a minute after the last. Nobody logs the session out, and the identity stays cached. */
  ghost predicate Attentive(ts: seq<Turn>, id: Id, router: Router, last: int)
    decreases |ts|
  {
    ts != [] ==>
      && (exists j :: 0 <= j < |ts| && FromSession(ts[j], id, router) && ts[j].message.value.time <= last + MINUTE)
      && (ts[0].refresh.Some? ==> id in ts[0].refresh.value)
      && !LogsOut(ts[0], id, router)
      && Attentive(ts[1..], id, router, if FromSession(ts[0], id, router) then ts[0].message.value.time else last)
  }

  lemma {:induction false} TimesInOrder(ts: seq<Turn>, d: int, e: int, j: nat)
    requires Timed(ts, d, e) && j < |ts| && ts[j].message.Some?
    ensures ts[0].handler <= ts[j].message.value.time
    decreases j
  {
    if j > 0 {
      TimedTail(ts, d, e);
      TimesInOrder(ts[1..], d, e, j - 1);
    }
  }

  lemma AttentiveTurn(l: Loop, t: Turn, id: Id, router: Router, last: int)
    requires LoggedIn(l.service, id, last) && l.service.clients[id].router == router && id in l.service.cache
    requires t.handler <= last + MINUTE && (t.refresh.Some? ==> id in t.refresh.value)
    requires t.message.Some? ==> t.message.value.Message?
    requires !LogsOut(t, id, router)
    ensures var s := TurnLoop(l, t).service;
      && LoggedIn(s, id, if FromSession(t, id, router) then t.message.value.time else last)
      && s.clients[id].router == router && id in s.cache
  {
  }

  /** A session that keeps sending at least once a minute is not logged out by any turn's handler, and is
      still the same session in the end. */
  lemma {:induction false} AttentiveNeverExpires(
    l: Loop, ts: seq<Turn>, id: Id, router: Router, last: int, d: int, e: int)
    requires Timed(ts, d, e)
    requires LoggedIn(l.service, id, last) && l.service.clients[id].router == router && id in l.service.cache
    requires Attentive(ts, id, router, last)
    ensures forall i: nat :: i < |ts| ==> !ExpiresAt(l, ts, id, i)
    ensures var s := RunLoop(l, ts).service; id in s.clients && s.clients[id].login && s.clients[id].router == router
    decreases |ts|
  {
    if ts != [] {
      var j :| 0 <= j < |ts| && FromSession(ts[j], id, router) && ts[j].message.value.time <= last + MINUTE;
      TimesInOrder(ts, d, e, j);
      SilentTurn(l, ts[0], id, last);
      AttentiveTurn(l, ts[0], id, router, last);
      TimedTail(ts, d, e);
      AttentiveNeverExpires(TurnLoop(l, ts[0]), ts[1..], id, router,
        if FromSession(ts[0], id, router) then ts[0].message.value.time else last, d, e);
      forall i: nat | i < |ts|
        ensures !ExpiresAt(l, ts, id, i)
      {
        if i > 0 { assert !ExpiresAt(TurnLoop(l, ts[0]), ts[1..], id, i - 1); }
      }
    }
  }

  // ---------------------------------------------------------------------------
  // The service object
  // ---------------------------------------------------------------------------

  class DispatcherService {
    var m_mapClients: map<Id, Client>
    var m_setManagerCache: set<Id>
    /** Of `m_timerKA`. */
    var trigtime: int

    ghost function State(): Service
      reads this
    {
      Service(m_mapClients, m_setManagerCache)
    }

    ghost function PollState(): Loop
      reads this
    {
      Loop(State(), trigtime)
    }

    constructor (now: int)
      ensures PollState() == Loop(Init(), now + KA_PERIOD)
    {
      m_mapClients, m_setManagerCache, trigtime := map[], {}, now + KA_PERIOD;
    }

    /** The set is rebuilt from the rows read. */
    method UpdManagerCache(rows: seq<Id>)
      modifies this`m_setManagerCache
      ensures State() == Apply(old(State()), Refresh(set n | n in rows))
    {
      m_setManagerCache := {};
      for i := 0 to |rows|
        invariant m_setManagerCache == set n | n in rows[..i]
      {
        m_setManagerCache := m_setManagerCache + {rows[i]};
        assert rows[..i + 1] == rows[..i] + [rows[i]];
      }
      assert rows[..|rows|] == rows;
    }

    /** Every client whose last message is more than a minute old is logged out; every other one, logged in
        or not, is sent a keep-alive at its router. */
    method KaTimeHandle(now: int) returns (pushed: map<Id, Router>)
      modifies this`m_mapClients
      ensures State() == OnTick(old(State()), now)
      ensures pushed == map id | id in old(m_mapClients) && old(m_mapClients)[id].lastRead + MINUTE >= now
                               :: old(m_mapClients)[id].router
    {
      ghost var was := m_mapClients;
      var todo := m_mapClients.Keys;
      pushed := map[];
      while todo != {}
        invariant todo <= was.Keys && m_mapClients.Keys == was.Keys
        invariant forall id :: id in was ==> m_mapClients[id] == if id in todo then was[id] else Expire(was[id], now)
        invariant forall id :: id in pushed <==> id in was && id !in todo && was[id].lastRead + MINUTE >= now
        invariant forall id :: id in pushed ==> pushed[id] == was[id].router
        decreases todo
      {
        var id :| id in todo;
        var client := m_mapClients[id];
        if client.lastRead + MINUTE < now {
          m_mapClients := m_mapClients[id := client.(login := false)];
        } else {
          pushed := pushed[id := client.router];
        }
        todo := todo - {id};
      }
      assert m_mapClients == (map id | id in was :: Expire(was[id], now));
    }

    /** One received message: the checks of `pollFunc` and the session part of `onRecvCmd`, with the error id
        of the answer. */
    method OnReceive(router: Router, id: Id, cmd: int, time: int) returns (verdict: Verdict, error: int32)
      modifies this`m_mapClients
      ensures verdict == Check(old(State()), Message(router, id, cmd, time))
      ensures error == Reply(old(State()), Message(router, id, cmd, time))
      ensures State() == OnMessage(old(State()), Message(router, id, cmd, time))
    {
      if id !in m_setManagerCache {
        return IdentifyError, 2;
      }
      var client;
      if id !in m_mapClients {
        client := Client([], false, time);
        m_mapClients := m_mapClients[id := client];
      } else {
        client := m_mapClients[id];
        assert m_mapClients == m_mapClients[id := client];
      }
      if !client.login && cmd != T_LOGIN && cmd != T_KEEPALIVE {
        return NoLogin, 3;
      }
      if client.login && client.router != router {
        return MultiLogin, 4;
      }
      client := client.(router := router, lastRead := time);
      error := 0;
      if cmd == T_LOGIN {
        if client.login {
          error := 1;
        } else {
          client := client.(login := true);
        }
      } else if cmd == T_LOGOUT {
        client := client.(login := false);
      }
      m_mapClients := m_mapClients[id := client];
      verdict := Reached;
    }
  }
}

/** Database, manager cache and sessions together: who is let through in terms of the table. */
module Dispatcher {
  import Managers = ManagerCache
  import Requests
  import Sessions

  /** The poll thread's cache is the one that the identity check of the sessions looks at. */
  datatype Sys = Sys(db: Managers.State, service: Sessions.Service)

  /** Ticks and messages are handled by the poll thread, so not while it rebuilds its cache. */
  datatype Step =
    | Db(step: Managers.Step)              // a worker, or the poll thread's refresh
    | Mail(m: Sessions.Event, managers: bool)       // a message; `managers`: an insert among them is one of managers
    | Timer(now: int)

  function WithDb(s: Sys, db: Managers.State): Sys { Sys(db, s.service.(cache := db.cache)) }

  /** An accepted insert of managers raises the flag and is handed over. */
  function Announced(s: Sys, m: Sessions.Event, managers: bool): Managers.State
    requires m.Message?
  {
    if managers && m.cmd == Requests.T_INSERT && Sessions.Check(s.service, m).Reached?
    then Managers.Apply(s.db, Managers.Announce(m.id)) else s.db
  }

  function Apply(s: Sys, step: Step): Sys {
    match step
    case Db(d) => if d.Announce? then s else WithDb(s, Managers.Apply(s.db, d))
    case Mail(m, managers) =>
      if m.Message? && s.db.poller.Away? then Sys(Announced(s, m, managers), Sessions.OnMessage(s.service, m)) else s
    case Timer(now) => if s.db.poller.Away? then s.(service := Sessions.OnTick(s.service, now)) else s
  }

  function Run(s: Sys, steps: seq<Step>): Sys
    decreases |steps|
  {
    if steps == [] then s else Run(Apply(s, steps[0]), steps[1..])
  }

  predicate Init(s: Sys) { Managers.Init(s.db) && s.service == Sessions.Init() }

  predicate Atomic(steps: seq<Step>) {
    forall i :: 0 <= i < |steps| ==> !(steps[i].Db? && steps[i].step.PartialFail?)
  }

  ghost predicate Inv(s: Sys) { Managers.Inv(s.db) && s.service.cache == s.db.cache }

  lemma StepInv(s: Sys, step: Step)
    requires Inv(s) && !(step.Db? && step.step.PartialFail?)
    ensures Inv(Apply(s, step))
  {
    match step
    case Db(d) => Managers.StepInv(s.db, d);
    case Mail(m, _) => if m.Message? { Managers.StepInv(s.db, Managers.Announce(m.id)); }
    case Timer(_) =>
  }

  lemma {:induction false} RunInv(s: Sys, steps: seq<Step>)
    requires Inv(s) && Atomic(steps)
    ensures Inv(Run(s, steps))
    decreases |steps|
  {
    if steps != [] {
      StepInv(s, steps[0]);
      RunInv(Apply(s, steps[0]), steps[1..]);
    }
  }

  /** What a step is to the sessions: workers and refreshes only show in the cache, and the poll thread does
      nothing else while it rebuilds it. */
  function EventOf(s: Sys, step: Step): seq<Sessions.Event> {
    match step
    case Db(d) => if d.Announce? then [] else [Sessions.Refresh(Managers.Apply(s.db, d).cache)]
    case Mail(m, _) => if m.Message? && s.db.poller.Away? then [m] else []
    case Timer(now) => if s.db.poller.Away? then [Sessions.Tick(now)] else []
  }

  function EventsOf(s: Sys, steps: seq<Step>): seq<Sessions.Event>
    decreases |steps|
  {
    if steps == [] then [] else EventOf(s, steps[0]) + EventsOf(Apply(s, steps[0]), steps[1..])
  }

  lemma EventRuns(s: Sys, step: Step)
    ensures Apply(s, step).service == Sessions.Run(s.service, EventOf(s, step))
  {
    if EventOf(s, step) != [] { Sessions.RunOne(s.service, EventOf(s, step)[0]); }
  }

  lemma {:induction false} EventsRun(s: Sys, steps: seq<Step>)
    ensures Run(s, steps).service == Sessions.Run(s.service, EventsOf(s, steps))
    decreases |steps|
  {
    if steps != [] {
      EventRuns(s, steps[0]);
      EventsRun(Apply(s, steps[0]), steps[1..]);
      Sessions.RunAppend(s.service, EventOf(s, steps[0]), EventsOf(Apply(s, steps[0]), steps[1..]));
    }
  }

  /** In every run of workers, refreshes, timer and messages without a partly failed insert: whenever the
      flag is down, no worker is about to raise it and no refresh is under way, a message is let through
      exactly as the database and the events so far say, and answered accordingly. */
  lemma TableDecides(s0: Sys, steps: seq<Step>, m: Sessions.Event)
    requires Init(s0) && Atomic(steps) && m.Message? && Managers.Quiet(Run(s0, steps).db)
    ensures var s, seat := Run(s0, steps), Sessions.SeatOf(EventsOf(s0, steps), m.id);
      && (Sessions.Check(s.service, m).Reached? <==> Sessions.Passes(seat, m.id in s.db.table, m))
      && Sessions.Reply(s.service, m) ==
           if m.id !in s.db.table then 2
           else if seat.Held? && seat.router != m.router then 4
           else if seat.Free? && m.cmd != Sessions.T_LOGIN && m.cmd != Sessions.T_KEEPALIVE then 3
           else if seat.Held? && m.cmd == Sessions.T_LOGIN then 1
           else 0
  {
    var events := EventsOf(s0, steps);
    RunInv(s0, steps);
    EventsRun(s0, steps);
    Sessions.SeatsAgree(events, m.id);
    Sessions.SingleLoginPoint(events, m);
  }

  // ---------------------------------------------------------------------------
  // What a partly failed insert does to its managers
  // ---------------------------------------------------------------------------

  function Lift(ds: seq<Managers.Step>): seq<Step> {
    seq(|ds|, i requires 0 <= i < |ds| => Db(ds[i]))
  }

  lemma {:induction false} LiftRuns(s: Sys, ds: seq<Managers.Step>)
    requires s.service.cache == s.db.cache && forall i :: 0 <= i < |ds| ==> !ds[i].Announce?
    ensures Run(s, Lift(ds)) == WithDb(s, Managers.Run(s.db, ds))
    decreases |ds|
  {
    if ds != [] {
      assert Lift(ds)[1..] == Lift(ds[1..]);
      LiftRuns(Apply(s, Db(ds[0])), ds[1..]);
    }
  }

  lemma {:induction false} RunAppend(s: Sys, a: seq<Step>, b: seq<Step>)
    ensures Run(s, a + b) == Run(Run(s, a), b)
    decreases |a|
  {
    if a == [] {
      assert a + b == b;
    } else {
      assert (a + b)[1..] == a[1..] + b;
      RunAppend(Apply(s, a[0]), a[1..], b);
    }
  }

  lemma {:induction false} FillNeverAnnounces(names: seq<Managers.Name>)
    ensures forall i :: 0 <= i < |Managers.Fill(names)| ==> !Managers.Fill(names)[i].Announce?
  {
    if names != [] { FillNeverAnnounces(names[1..]); }
  }

  lemma RefreshRuns(s: Sys, names: seq<Managers.Name>)
    requires s.service.cache == s.db.cache && Managers.Lists(names, s.db.table)
    requires s.db.flag && s.db.poller.Away? && s.db.storing == 0
    ensures Run(s, Lift(Managers.Refresh(names))) == WithDb(s, s.db.(flag := false, cache := s.db.table))
  {
    FillNeverAnnounces(names);
    LiftRuns(s, Managers.Refresh(names));
    Managers.RefreshCatchesUp(s.db, names);
  }

  lemma RunTwo(s: Sys, a: Step, b: Step)
    ensures Run(s, [a, b]) == Apply(Apply(s, a), b)
  {
    var one := [b];
    assert [a, b][1..] == one && one[1..] == [];
    assert Run(Apply(s, a), one) == Run(Apply(Apply(s, a), b), []);
  }

  lemma RunOne(s: Sys, a: Step)
    ensures Run(s, [a]) == Apply(s, a)
  {
    var one := [a];
    assert one[1..] == [];
    assert Run(Apply(s, a), []) == Apply(s, a);
  }

  /** A manager logs in and has managers inserted. */
  function Mails(who: Sessions.Id, router: Sessions.Router, time: int): seq<Step> {
    [Mail(Sessions.Message(router, who, Sessions.T_LOGIN, time), false),
     Mail(Sessions.Message(router, who, Requests.T_INSERT, time), true)]
  }

  lemma MailsAnnounce(s: Sys, who: Sessions.Id, router: Sessions.Router, time: int)
    requires s.service.cache == s.db.cache && who in s.db.cache && s.service.clients == map[] && s.db.poller.Away?
    ensures var s' := Run(s, Mails(who, router, time));
      s'.db == Managers.Apply(s.db, Managers.Announce(who)) && s'.service.cache == s.service.cache
  {
    RunTwo(s, Mails(who, router, time)[0], Mails(who, router, time)[1]);
  }

  /** From the start to a wrong refusal, for every table with a manager in it and every larger one: the
      insert is accepted, the refresh it announces comes before the insert itself, and the insert fails in
      part. With nothing left to happen, its managers are in the database and cannot log in. */
  lemma RefusedThoughInTable(s0: Sys, names: seq<Managers.Name>, who: Sessions.Id, router: Sessions.Router, time: int,
                             t: set<Managers.Name>) returns (steps: seq<Step>)
    requires Init(s0) && Managers.Lists(names, s0.db.table) && who in s0.db.table && s0.db.table < t
    ensures var s := Run(s0, steps);
      && Managers.Quiet(s.db) && s.db.inserts == 0 && s.db.table == t
      && forall m: Sessions.Event :: m.Message? && m.id in t - s0.db.table ==>
           Sessions.Check(s.service, m).IdentifyError?
  {
    var refresh, mails := Lift(Managers.Refresh(names)), Mails(who, router, time);
    RefreshRuns(s0, names);
    var s1 := Run(s0, refresh);
    MailsAnnounce(s1, who, router, time);
    var s2 := Run(s1, mails);
    RefreshRuns(s2, names);
    var s3 := Run(s2, refresh);
    RunOne(s3, Db(Managers.PartialFail(t)));
    RunAppend(s0, refresh, mails);
    RunAppend(s0, refresh + mails, refresh);
    RunAppend(s0, refresh + mails + refresh, [Db(Managers.PartialFail(t))]);
    steps := refresh + mails + refresh + [Db(Managers.PartialFail(t))];
  }
}

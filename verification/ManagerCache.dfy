/** How the poll thread's set of manager names follows the `ManageUser` table that worker threads
    change: commit then raise the flag, against take the flag, query, rebuild. */
module ManagerCache {
  import opened Bytes

  type Name = seq<byte>

  /** Where the poll thread stands: elsewhere, between taking the flag and querying, or rebuilding the
      set from the rows it read. */
  datatype Poller = Away | Querying | Rebuilding(todo: set<Name>)

  /** `table` is the set of manager names in the database, `inserts` counts the inserts of managers handed
      to the workers and not yet done, `storing` the workers between a successful batch and
      `storeCacheBool`. */
  datatype State = State(table: set<Name>, flag: bool, cache: set<Name>, poller: Poller, inserts: nat, storing: nat)

  datatype Step =
    | Announce(who: Name)         // onRecvCmd: the flag is raised and a sender's insert handed over
    | Insert(table: set<Name>)   // a worker's insert succeeds, under the database lock
    | Change(table: set<Name>)   // a deletion or an update succeeds: no name is new
    | Store                      // the worker of a successful batch raises the flag
    | Fail(insert: bool)         // a batch fails and leaves nothing behind: no flag
    | PartialFail(table: set<Name>) // an insert fails after some rows went in on their own: no flag
    | TakeFlag                   // pollFunc: compare_exchange
    | Query                      // updManagerCache: read all rows, under the database lock, and clear the set
    | InsertOne(name: Name)      // updManagerCache: put one row's name into the set
    | Finish                     // updManagerCache: no rows left

  /** Only an insert can leave part of its work behind: deletions run in a transaction, and an update sets
      the name it looked for. */
  predicate CanFailInPart(s: State, t: set<Name>) { s.inserts > 0 && s.table < t }

  function Apply(s: State, step: Step): State {
    match step
    case Announce(who) =>
      if s.poller.Away? && who in s.cache then s.(flag := true, inserts := s.inserts + 1) else s
    case Insert(t) =>
      if s.inserts > 0 && s.table <= t
      then s.(table := t, inserts := s.inserts - 1, storing := s.storing + 1) else s
    case Change(t) => if t <= s.table then s.(table := t, storing := s.storing + 1) else s
    case Store => if s.storing > 0 then s.(flag := true, storing := s.storing - 1) else s
    case Fail(insert) => if insert && s.inserts > 0 then s.(inserts := s.inserts - 1) else s
    case PartialFail(t) => if CanFailInPart(s, t) then s.(table := t, inserts := s.inserts - 1) else s
    case TakeFlag => if s.poller.Away? && s.flag then s.(flag := false, poller := Querying) else s
    case Query => if s.poller.Querying? then s.(poller := Rebuilding(s.table), cache := {}) else s
    case InsertOne(n) =>
      if s.poller.Rebuilding? && n in s.poller.todo
      then s.(poller := Rebuilding(s.poller.todo - {n}), cache := s.cache + {n}) else s
    case Finish => if s.poller == Rebuilding({}) then s.(poller := Away) else s
  }

  function Run(s: State, steps: seq<Step>): State
    decreases |steps|
  {
    if steps == [] then s else Run(Apply(s, steps[0]), steps[1..])
  }

  /** The service starts with the flag raised and nothing cached. */
  predicate Init(s: State) {
    s.flag && s.cache == {} && s.poller.Away? && s.inserts == 0 && s.storing == 0
  }

  /** What the set will hold once a rebuild in progress is over. */
  function View(s: State): set<Name> {
    if s.poller.Rebuilding? then s.cache + s.poller.todo else s.cache
  }

  /** Someone is still obliged to make the poll thread read again. */
  predicate Due(s: State) { s.flag || s.storing > 0 || s.poller.Querying? }

  predicate Inv(s: State) { Due(s) || View(s) == s.table }

  predicate Quiet(s: State) { !s.flag && s.storing == 0 && s.poller.Away? }

  /** Batches are atomic when none of them fails in part. */
  predicate Atomic(steps: seq<Step>) {
    forall i :: 0 <= i < |steps| ==> !steps[i].PartialFail?
  }

  lemma StepInv(s: State, step: Step)
    requires Inv(s) && !step.PartialFail?
    ensures Inv(Apply(s, step))
  {
    if step.InsertOne? && s.poller.Rebuilding? && step.name in s.poller.todo {
      assert s.cache + {step.name} + (s.poller.todo - {step.name}) == s.cache + s.poller.todo;
    }
  }

  lemma {:induction false} RunInv(s: State, steps: seq<Step>)
    requires Inv(s) && Atomic(steps)
    ensures Inv(Run(s, steps))
    decreases |steps|
  {
    if steps != [] {
      StepInv(s, steps[0]);
      RunInv(Apply(s, steps[0]), steps[1..]);
    }
  }

  /** In every interleaving of atomic batches and refreshes: whenever the flag is down, no worker is
      between commit and store, and no refresh is under way, the cached set is the table. */
  lemma CacheCoherence(s0: State, steps: seq<Step>)
    requires Init(s0) && Atomic(steps) && Quiet(Run(s0, steps))
    ensures Run(s0, steps).cache == Run(s0, steps).table
  {
    RunInv(s0, steps);
  }

  /** The loop of `updManagerCache` over the rows it read. */
  function Fill(names: seq<Name>): seq<Step> {
    if names == [] then [Finish] else [InsertOne(names[0])] + Fill(names[1..])
  }

  /** Rebuilding from rows that name all that is still to do, whatever their order and repetitions, ends
      with exactly that added. */
  lemma {:induction false} FillRebuilds(s: State, names: seq<Name>)
    requires s.poller.Rebuilding? && forall n :: n in s.poller.todo ==> n in names
    ensures Run(s, Fill(names)) == s.(poller := Away, cache := s.cache + s.poller.todo)
    ensures Atomic(Fill(names))
    decreases |names|
  {
    if names == [] {
      assert s.poller.todo == {} && s.cache + {} == s.cache;
      assert Run(Apply(s, Finish), []) == Apply(s, Finish);
    } else {
      var n, s1 := names[0], Apply(s, InsertOne(names[0]));
      assert Fill(names)[1..] == Fill(names[1..]);
      assert s1.cache + s1.poller.todo == s.cache + s.poller.todo;
      assert forall m :: m in names <==> m == n || m in names[1..];
      FillRebuilds(s1, names[1..]);
    }
  }

  lemma {:induction false} Enumerate(xs: set<Name>) returns (names: seq<Name>)
    ensures forall n :: n in xs <==> n in names
    decreases |xs|
  {
    if xs == {} {
      names := [];
    } else {
      var x :| x in xs;
      var rest := Enumerate(xs - {x});
      names := [x] + rest;
    }
  }

  /** A raised flag is answered: with no batch in between, taking it, querying and inserting the rows
      leaves the cache equal to the table and the service quiet. */
  lemma RefreshCatchesUp(s: State, names: seq<Name>)
    requires s.flag && s.poller.Away? && s.storing == 0 && Lists(names, s.table)
    ensures Run(s, Refresh(names)) == s.(flag := false, cache := s.table)
    ensures Quiet(Run(s, Refresh(names))) && Atomic(Refresh(names))
  {
    var s2 := Apply(Apply(s, TakeFlag), Query);
    RunTwo(s, TakeFlag, Query);
    RunAppend(s, [TakeFlag, Query], Fill(names));
    FillRebuilds(s2, names);
    assert {} + s.table == s.table;
  }

  /** Rows with exactly these names, in any order and with any repetitions. */
  ghost predicate Lists(names: seq<Name>, table: set<Name>) { forall n :: n in table <==> n in names }

  function Refresh(names: seq<Name>): seq<Step> { [TakeFlag, Query] + Fill(names) }

  lemma RunTwo(s: State, a: Step, b: Step)
    ensures Run(s, [a, b]) == Apply(Apply(s, a), b)
  {
    var one := [b];
    assert [a, b][1..] == one && one[1..] == [];
    assert Run(Apply(s, a), one) == Run(Apply(Apply(s, a), b), []);
  }

  lemma {:induction false} RunAppend(s: State, a: seq<Step>, b: seq<Step>)
    ensures Run(s, a + b) == Run(Run(s, a), b)
    decreases |a|
  {
    if a == [] {
      assert a + b == b;
    } else {
      assert (a + b)[1..] == a[1..] + b;
      RunAppend(Apply(s, a[0]), a[1..], b);
    }
  }

  /** From here on, no interleaving of atomic batches and refreshes shows a wrong cache at a quiet moment. */
  ghost predicate Safe(s: State) {
    forall steps | Atomic(steps) && Quiet(Run(s, steps)) :: Run(s, steps).cache == Run(s, steps).table
  }

  /** The invariant is not just sufficient: a state that lacks it can go wrong with no further batch, by
      letting the refresh under way finish. */
  lemma SafeExactly(s: State)
    ensures Safe(s) <==> Inv(s)
  {
    if Inv(s) {
      forall steps | Atomic(steps) && Quiet(Run(s, steps))
        ensures Run(s, steps).cache == Run(s, steps).table
      {
        RunInv(s, steps);
      }
    } else if s.poller.Away? {
      assert Run(s, []) == s && Atomic([]);
    } else {
      var names := Enumerate(s.poller.todo);
      FillRebuilds(s, names);
      assert Quiet(Run(s, Fill(names)));
    }
  }

  /** Inserts are issued without opening a transaction, so one can fail in part, its rows in and no flag
      raised. That is harmless if and only if a refresh is due anyway, or the table is left as the poll
      thread already sees it. */
  lemma PartialFailExactly(s: State, t: set<Name>)
    ensures Safe(Apply(s, PartialFail(t))) <==> Due(s) || View(s) == if CanFailInPart(s, t) then t else s.table
  {
    SafeExactly(Apply(s, PartialFail(t)));
  }

  /** A service start, an insert by a cached manager, the refresh its announcement causes, and only then the
      insert itself, which fails in part and leaves the names `t`. */
  function LateInsert(names: seq<Name>, who: Name, t: set<Name>): seq<Step> {
    Refresh(names) + [Announce(who)] + Refresh(names) + [PartialFail(t)]
  }

  /** And it does happen: for every table with a manager in it and every larger one, that run ends quiet with
      the old names cached and the new ones in the table. */
  lemma PartialFailReachesStaleCache(s0: State, names: seq<Name>, who: Name, t: set<Name>)
    requires Init(s0) && Lists(names, s0.table) && who in s0.table && s0.table < t
    ensures Run(s0, LateInsert(names, who, t)) == s0.(table := t, flag := false, cache := s0.table)
    ensures Quiet(Run(s0, LateInsert(names, who, t)))
  {
    var r := Refresh(names);
    RefreshCatchesUp(s0, names);
    var s1 := Run(s0, r);
    var s2 := Apply(s1, Announce(who));
    RunOne(s1, Announce(who));
    RunAppend(s0, r, [Announce(who)]);
    RefreshCatchesUp(s2, names);
    RunAppend(s0, r + [Announce(who)], r);
    RunOne(Run(s2, r), PartialFail(t));
    RunAppend(s0, r + [Announce(who)] + r, [PartialFail(t)]);
  }

  lemma RunOne(s: State, a: Step)
    ensures Run(s, [a]) == Apply(s, a)
  {
    var one := [a];
    assert one[1..] == [];
    assert Run(Apply(s, a), []) == Apply(s, a);
  }

  predicate RaisesFlag(step: Step) { step.Announce? || step.Insert? || step.Change? }

  /** The wrong cache stays until somebody announces another insert or another batch succeeds, however many
      inserts fail meanwhile. After that `RefreshCatchesUp` puts it right. */
  lemma {:induction false} StaysStale(s: State, steps: seq<Step>)
    requires Quiet(s) && s.cache < s.table && forall i :: 0 <= i < |steps| ==> !RaisesFlag(steps[i])
    ensures Quiet(Run(s, steps)) && Run(s, steps).cache == s.cache < Run(s, steps).table
    decreases |steps|
  {
    if steps != [] {
      assert !RaisesFlag(steps[0]);
      StaysStale(Apply(s, steps[0]), steps[1..]);
    }
  }

  // ---------------------------------------------------------------------------
  // Changes arrive
  // ---------------------------------------------------------------------------

  /** The refresh under way, if any, can come to its end. */
  lemma CanFinishRefresh(s: State) returns (steps: seq<Step>)
    requires Inv(s)
    ensures var s' := Run(s, steps);
      && Inv(s') && s'.poller.Away? && s'.table == s.table && s'.storing == s.storing && s'.inserts == s.inserts
  {
    if s.poller.Away? {
      steps := [];
    } else {
      var first: seq<Step> := if s.poller.Querying? then [Query] else [];
      if s.poller.Querying? { RunOne(s, Query); }
      var s1 := Run(s, first);
      var names := Enumerate(s1.poller.todo);
      FillRebuilds(s1, names);
      RunInv(s, first);
      RunInv(s1, Fill(names));
      RunAppend(s, first, Fill(names));
      steps := first + Fill(names);
    }
  }

  /** Every worker with a successful batch can raise the flag. */
  lemma {:induction false} CanStoreAll(s: State) returns (steps: seq<Step>)
    ensures Run(s, steps) == s.(storing := 0, flag := s.flag || s.storing > 0)
    decreases s.storing
  {
    if s.storing == 0 {
      steps := [];
    } else {
      var rest := CanStoreAll(Apply(s, Store));
      steps := [Store] + rest;
      assert steps[1..] == rest;
    }
  }

  /** From every state that keeps the invariant the service can settle, with the cache equal to the table. */
  lemma CanSettle(s: State) returns (steps: seq<Step>)
    requires Inv(s)
    ensures var s' := Run(s, steps);
      Quiet(s') && s'.cache == s'.table == s.table && s'.inserts == s.inserts
  {
    var a := CanFinishRefresh(s);
    var s1 := Run(s, a);
    var b := CanStoreAll(s1);
    var s2 := Run(s1, b);
    RunAppend(s, a, b);
    if s2.flag {
      var names := Enumerate(s2.table);
      RefreshCatchesUp(s2, names);
      RunAppend(s, a + b, Refresh(names));
      steps := a + b + Refresh(names);
    } else {
      steps := a + b;
    }
  }

  /** A successful insert of announced managers, a deletion and an update all reach the cache: some steps
      later the service is quiet with exactly the new table cached. */
  lemma ChangeArrives(s: State, step: Step) returns (steps: seq<Step>)
    requires Inv(s)
    requires (step.Insert? && s.inserts > 0 && s.table <= step.table) || (step.Change? && step.table <= s.table)
    ensures var s' := Run(Apply(s, step), steps);
      && Quiet(s') && s'.cache == s'.table == step.table
      && s'.inserts == s.inserts - if step.Insert? then 1 else 0
  {
    StepInv(s, step);
    steps := CanSettle(Apply(s, step));
  }

  /** An insert that fails outright is over and has changed nothing else. */
  lemma FailedInsertIsOver(s: State)
    requires s.inserts > 0
    ensures Apply(s, Fail(true)) == s.(inserts := s.inserts - 1)
  {
  }
}

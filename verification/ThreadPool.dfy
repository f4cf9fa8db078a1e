/** The fixed thread pool of `FixedThreaPool.h`: submitters and workers interleaving at their shared
    accesses. */
module ThreadPool {

  type Job = nat

  /** Where a worker stands in `do_work`. */
  datatype Worker =
    | AtTop             // about to test the loop condition
    | Waiting           // inside the wait on the condition variable
    | Holding(job: Job) // has popped a job, the idle counter not yet lowered
    | Running(job: Job) // counter lowered, the job called
    | Returned          // the job has returned, the counter not yet raised
    | Exited

  /** `pending` are submitters past the stop test and before the queue lock. The rest is history:
      `accepted` in the order of enqueueing, `dequeued` in the order of popping, `finished` as jobs
      return, and the number of jobs called since the stop flag was set. */
  datatype Pool = Pool(
    queue: seq<Job>, stopped: bool, idle: int, workers: seq<Worker>,
    pending: multiset<Job>, accepted: seq<Job>, dequeued: seq<Job>, finished: multiset<Job>, late: nat)

  datatype Step =
    | Submit(job: Job)   // submit: the stop test
    | Enqueue(job: Job)  // submit: the locked section
    | Loop(w: nat)       // do_work: the loop test
    | Take(w: nat)       // do_work: the locked section, once the wait predicate holds
    | Call(w: nat)       // do_work: nIdlThredNum-- and the call
    | Return(w: nat)     // the job returns
    | Raise(w: nat)      // do_work: nIdlThredNum++
    | Stop               // destructor: the flag, set without the lock

  /** A step that is not enabled changes nothing. */
  function Apply(s: Pool, step: Step): Pool {
    match step
    case Submit(j) => if s.stopped then s else s.(pending := s.pending + multiset{j})
    case Enqueue(j) =>
      if j in s.pending
      then s.(pending := s.pending - multiset{j}, queue := s.queue + [j], accepted := s.accepted + [j]) else s
    case Loop(w) =>
      if w < |s.workers| && s.workers[w].AtTop?
      then s.(workers := s.workers[w := if s.stopped then Exited else Waiting]) else s
    case Take(w) =>
      if w < |s.workers| && s.workers[w].Waiting? && (s.stopped || s.queue != []) then
        if s.queue == [] then s.(workers := s.workers[w := Exited])
        else s.(workers := s.workers[w := Holding(s.queue[0])], queue := s.queue[1..],
                dequeued := s.dequeued + [s.queue[0]])
      else s
    case Call(w) =>
      if w < |s.workers| && s.workers[w].Holding?
      then s.(workers := s.workers[w := Running(s.workers[w].job)], idle := s.idle - 1,
              late := if s.stopped then s.late + 1 else s.late) else s
    case Return(w) =>
      if w < |s.workers| && s.workers[w].Running?
      then s.(workers := s.workers[w := Returned], finished := s.finished + multiset{s.workers[w].job}) else s
    case Raise(w) =>
      if w < |s.workers| && s.workers[w].Returned?
      then s.(workers := s.workers[w := AtTop], idle := s.idle + 1) else s
    case Stop => s.(stopped := true)
  }

  function Run(s: Pool, steps: seq<Step>): Pool
    decreases |steps|
  {
    if steps == [] then s else Run(Apply(s, steps[0]), steps[1..])
  }

  /** `num` is the thread count the constructor settled on; it may be 0, since
      `hardware_concurrency` may report 0. */
  function Init(num: nat): Pool {
    Pool([], false, num, seq(num, _ => AtTop), multiset{}, [], [], multiset{}, 0)
  }

  // ---------------------------------------------------------------------------
  // Counting over the workers
  // ---------------------------------------------------------------------------

  function Sum(ws: seq<Worker>, f: Worker -> nat): nat {
    if ws == [] then 0 else f(ws[0]) + Sum(ws[1..], f)
  }

  lemma {:induction false} SumUpdate(ws: seq<Worker>, f: Worker -> nat, w: nat, x: Worker)
    requires w < |ws|
    ensures Sum(ws[w := x], f) + f(ws[w]) == Sum(ws, f) + f(x)
  {
    if w > 0 {
      assert ws[w := x][1..] == ws[1..][w - 1 := x];
      SumUpdate(ws[1..], f, w - 1, x);
    }
  }

  lemma {:induction false} SumBound(ws: seq<Worker>, f: Worker -> nat)
    requires forall x :: f(x) <= 1
    ensures Sum(ws, f) <= |ws|
  {
    if ws != [] {
      SumBound(ws[1..], f);
    }
  }

  /** 1 for a worker that has `j` in hand. */
  function Has(j: Job): Worker -> nat {
    (x: Worker) => if (x.Holding? || x.Running?) && x.job == j then 1 else 0
  }

  /** Between lowering and raising the counter. */
  function Active(x: Worker): nat { if x.Running? || x.Returned? then 1 else 0 }

  /** Able to call one more job without passing the loop test again. */
  function Armed(x: Worker): nat { if x.Waiting? || x.Holding? then 1 else 0 }

  // ---------------------------------------------------------------------------
  // The invariant
  // ---------------------------------------------------------------------------

  ghost predicate Ordered(s: Pool) { s.accepted == s.dequeued + s.queue }

  /** Each job was popped as often as it is now in hand or finished. */
  ghost predicate Balanced(s: Pool, j: Job) {
    multiset(s.dequeued)[j] == Sum(s.workers, Has(j)) + s.finished[j]
  }

  ghost predicate Conserved(s: Pool) { forall j: Job :: Balanced(s, j) }

  ghost predicate Counted(s: Pool) { s.idle == |s.workers| - Sum(s.workers, Active) }

  ghost predicate Winding(s: Pool) {
    if s.stopped then s.late + Sum(s.workers, Armed) <= |s.workers| else s.late == 0
  }

  ghost predicate Inv(s: Pool) { Ordered(s) && Conserved(s) && Counted(s) && Winding(s) }

  lemma InitInv(num: nat)
    ensures Inv(Init(num))
  {
    var ws := seq(num, _ => AtTop);
    AllAtTop(ws, Active);
    forall j: Job ensures Sum(ws, Has(j)) == 0 { AllAtTop(ws, Has(j)); }
  }

  lemma {:induction false} AllAtTop(ws: seq<Worker>, f: Worker -> nat)
    requires (forall i :: 0 <= i < |ws| ==> ws[i].AtTop?) && f(AtTop) == 0
    ensures Sum(ws, f) == 0
  {
    if ws != [] {
      AllAtTop(ws[1..], f);
    }
  }

  lemma StepOrdered(s: Pool, step: Step)
    requires Ordered(s)
    ensures Ordered(Apply(s, step))
  {
    match step
    case Enqueue(j) => assert s.dequeued + (s.queue + [j]) == (s.dequeued + s.queue) + [j];
    case Take(w) =>
      if s.queue != [] {
        assert s.queue == [s.queue[0]] + s.queue[1..];
        assert s.dequeued + s.queue == (s.dequeued + [s.queue[0]]) + s.queue[1..];
      }
    case _ =>
  }

  /** The worker a step moves, and where to. */
  function Moved(s: Pool, step: Step): Worker
    requires step.Loop? || step.Take? || step.Call? || step.Return? || step.Raise?
    requires step.w < |s.workers|
  {
    Apply(s, step).workers[step.w]
  }

  lemma MovesOne(s: Pool, step: Step, f: Worker -> nat)
    ensures
      if (step.Loop? || step.Take? || step.Call? || step.Return? || step.Raise?) && step.w < |s.workers|
      then Sum(Apply(s, step).workers, f) + f(s.workers[step.w]) == Sum(s.workers, f) + f(Moved(s, step))
      else Apply(s, step).workers == s.workers
  {
    if (step.Loop? || step.Take? || step.Call? || step.Return? || step.Raise?) && step.w < |s.workers| {
      assert Apply(s, step).workers == s.workers[step.w := Moved(s, step)];
      SumUpdate(s.workers, f, step.w, Moved(s, step));
    }
  }

  lemma TakeBalanced(s: Pool, w: nat, j: Job)
    requires Balanced(s, j)
    ensures Balanced(Apply(s, Take(w)), j)
  {
    MovesOne(s, Take(w), Has(j));
    if s.queue != [] { AppendCount(s.dequeued, s.queue[0], j); }
  }

  lemma ReturnBalanced(s: Pool, w: nat, j: Job)
    requires Balanced(s, j)
    ensures Balanced(Apply(s, Return(w)), j)
  {
    MovesOne(s, Return(w), Has(j));
  }

  lemma StepBalanced(s: Pool, step: Step, j: Job)
    requires Balanced(s, j)
    ensures Balanced(Apply(s, step), j)
  {
    match step
    case Take(w) => TakeBalanced(s, w, j);
    case Return(w) => ReturnBalanced(s, w, j);
    case _ => MovesOne(s, step, Has(j));
  }

  lemma AppendCount(xs: seq<Job>, x: Job, j: Job)
    ensures multiset(xs + [x])[j] == multiset(xs)[j] + if x == j then 1 else 0
  {
    assert multiset(xs + [x]) == multiset(xs) + multiset{x};
  }

  lemma StepCounted(s: Pool, step: Step)
    requires Counted(s)
    ensures Counted(Apply(s, step))
  {
    MovesOne(s, step, Active);
  }

  lemma StepWinding(s: Pool, step: Step)
    requires Winding(s)
    ensures Winding(Apply(s, step))
  {
    MovesOne(s, step, Armed);
    if step.Stop? { SumBound(s.workers, Armed); }
  }

  lemma StepInv(s: Pool, step: Step)
    requires Inv(s)
    ensures Inv(Apply(s, step)) && |Apply(s, step).workers| == |s.workers|
  {
    StepOrdered(s, step);
    StepCounted(s, step);
    StepWinding(s, step);
    forall j: Job ensures Balanced(Apply(s, step), j) { StepBalanced(s, step, j); }
  }

  lemma {:induction false} RunInv(s: Pool, steps: seq<Step>)
    requires Inv(s)
    ensures Inv(Run(s, steps)) && |Run(s, steps).workers| == |s.workers|
    decreases |steps|
  {
    if steps != [] {
      StepInv(s, steps[0]);
      RunInv(Apply(s, steps[0]), steps[1..]);
    }
  }

  /** In every interleaving, shutdown included: jobs leave the queue once each and in the order they
      entered it; nothing accepted is lost or doubled, it is queued, in a worker's hands, or finished;
      the idle counter is a number of threads; and once the stop flag is set no more jobs are called
      than there are threads. */
  lemma PoolSafety(num: nat, steps: seq<Step>)
    ensures var s := Run(Init(num), steps);
      && s.dequeued <= s.accepted && s.accepted[|s.dequeued|..] == s.queue
      && (forall j: Job {:trigger Has(j)} ::
            multiset(s.accepted)[j] == multiset(s.queue)[j] + Sum(s.workers, Has(j)) + s.finished[j])
      && 0 <= s.idle <= num
      && s.late <= num
  {
    InitInv(num);
    RunInv(Init(num), steps);
    var s := Run(Init(num), steps);
    SumBound(s.workers, Active);
    assert multiset(s.dequeued + s.queue) == multiset(s.dequeued) + multiset(s.queue);
    assert forall j: Job {:trigger Has(j)} :: Balanced(s, j);
  }

  /** Stopping does not empty the queue by itself: a worker that is already waiting still takes and calls
      one more job. */
  lemma LateCallHappens(s: Pool, w: nat)
    requires Inv(s) && w < |s.workers| && s.workers[w].Waiting? && s.queue != [] && !s.stopped
    ensures Apply(Apply(Apply(s, Stop), Take(w)), Call(w)).late == 1
  {
    assert s.late == 0;
  }

  /** A waiting worker serves the queue: it calls the oldest job, finishes it, and is idle again. */
  lemma WorkerServes(s: Pool, w: nat)
    requires w < |s.workers| && s.workers[w].Waiting? && s.queue != []
    ensures var s' := Apply(Apply(Apply(Apply(s, Take(w)), Call(w)), Return(w)), Raise(w));
      && s'.queue == s.queue[1..] && s'.finished == s.finished + multiset{s.queue[0]}
      && s'.workers == s.workers[w := AtTop] && s'.idle == s.idle
  {
    var s1 := Apply(s, Take(w));
    assert s1.workers[w] == Holding(s.queue[0]);
  }

  // ---------------------------------------------------------------------------
  // What becomes of submitted jobs
  // ---------------------------------------------------------------------------

  /** The jobs of the calls of `submit` made before the stop flag, from the steps alone. */
  function Submitted(steps: seq<Step>): multiset<Job> {
    if steps == [] || steps[0].Stop? then multiset{}
    else (if steps[0].Submit? then multiset{steps[0].job} else multiset{}) + Submitted(steps[1..])
  }

  function Entered(s: Pool): multiset<Job> { multiset(s.accepted) + s.pending }

  /** How often `j` counts as submitted by one step. */
  function Once(s: Pool, step: Step, j: Job): nat {
    if step.Submit? && !s.stopped && step.job == j then 1 else 0
  }

  lemma StepEnters(s: Pool, step: Step, j: Job)
    ensures Entered(Apply(s, step))[j] == Entered(s)[j] + Once(s, step, j)
  {
    if step.Enqueue? { AppendCount(s.accepted, step.job, j); }
  }

  lemma {:induction false} RunEnters(s: Pool, steps: seq<Step>, j: Job)
    ensures Entered(Run(s, steps))[j] == Entered(s)[j] + if s.stopped then 0 else Submitted(steps)[j]
    decreases |steps|
  {
    if steps != [] {
      StepEnters(s, steps[0], j);
      RunEnters(Apply(s, steps[0]), steps[1..], j);
    }
  }

  /** In every interleaving the jobs in the pool or on their way into it are those submitted before the stop
      flag, each as often as it was submitted. */
  lemma NothingLost(num: nat, steps: seq<Step>)
    ensures Entered(Run(Init(num), steps)) == Submitted(steps)
  {
    forall j: Job
      ensures Entered(Run(Init(num), steps))[j] == Submitted(steps)[j]
    {
      RunEnters(Init(num), steps, j);
    }
  }

  /** A submitter past the stop test puts its job at the end of the queue. */
  lemma EnqueueAppends(s: Pool, j: Job)
    requires j in s.pending
    ensures Apply(s, Enqueue(j)).queue == s.queue + [j] && Apply(s, Enqueue(j)).accepted == s.accepted + [j]
  {
  }

  lemma {:induction false} RunAppend(s: Pool, a: seq<Step>, b: seq<Step>)
    ensures Run(s, a + b) == Run(Run(s, a), b)
    decreases |a|
  {
    if a == [] {
      assert a + b == b;
    } else {
      assert (a + b)[1..] == a[1..] + b;
      RunAppend(Apply(s, a[0]), a[1..], b);
    }
  }

  lemma RunCons(s: Pool, step: Step, rest: seq<Step>)
    ensures Run(s, [step] + rest) == Run(Apply(s, step), rest)
  {
    assert ([step] + rest)[1..] == rest;
  }

  lemma RunOne(s: Pool, step: Step)
    ensures Run(s, [step]) == Apply(s, step)
  {
    assert [step] + [] == [step];
    RunCons(s, step, []);
  }

  /** A worker that has not exited can finish what it has in hand and come back to the loop test. */
  lemma {:induction false} ToTop(s: Pool, w: nat) returns (steps: seq<Step>)
    requires w < |s.workers| && (s.workers[w].Holding? || s.workers[w].Running? || s.workers[w].Returned?)
    ensures var s' := Run(s, steps);
      && s'.workers == s.workers[w := AtTop] && s'.queue == s.queue && s'.accepted == s.accepted
      && s'.stopped == s.stopped && s'.dequeued == s.dequeued
    decreases if s.workers[w].Holding? then 2 else if s.workers[w].Running? then 1 else 0
  {
    var step := if s.workers[w].Holding? then Call(w) else if s.workers[w].Running? then Return(w) else Raise(w);
    var s1 := Apply(s, step);
    var rest := [];
    if !s.workers[w].Returned? { rest := ToTop(s1, w); }
    assert s1.workers[w := AtTop] == s.workers[w := AtTop];
    RunCons(s, step, rest);
    steps := [step] + rest;
  }

  /** Before the stop flag, a worker that has not exited can work off the whole queue alone. */
  lemma {:induction false} CanDrain(s: Pool, w: nat) returns (steps: seq<Step>)
    requires w < |s.workers| && !s.workers[w].Exited? && !s.stopped
    ensures var s' := Run(s, steps);
      s'.queue == [] && s'.accepted == s.accepted && s'.workers == s.workers[w := Waiting]
    decreases |s.queue|, if s.workers[w].Waiting? then 0 else if s.workers[w].AtTop? then 1 else 2
  {
    if s.workers[w].Waiting? && s.queue == [] {
      assert s.workers[w := Waiting] == s.workers;
      steps := [];
    } else {
      var first: seq<Step>;
      if s.workers[w].Waiting? {
        first := [Take(w)];
        RunOne(s, Take(w));
      } else if s.workers[w].AtTop? {
        first := [Loop(w)];
        RunOne(s, Loop(w));
      } else {
        first := ToTop(s, w);
      }
      var s1 := Run(s, first);
      var rest := CanDrain(s1, w);
      RunAppend(s, first, rest);
      assert s1.workers[w := Waiting] == s.workers[w := Waiting];
      steps := first + rest;
    }
  }

  /** After the stop flag every worker can come to its end, calling at most one more job. */
  lemma CanExit(s: Pool, w: nat) returns (steps: seq<Step>)
    requires w < |s.workers| && s.stopped
    ensures var s' := Run(s, steps); s'.workers == s.workers[w := Exited] && |s'.dequeued| <= |s.dequeued| + 1
  {
    if s.workers[w].Exited? {
      steps := [];
    } else if s.workers[w].Waiting? && s.queue == [] {
      RunOne(s, Take(w));
      steps := [Take(w)];
    } else if s.workers[w].Waiting? {
      var s1 := Apply(s, Take(w));
      var rest := TopThenExit(s1, w);
      RunCons(s, Take(w), rest);
      assert s1.workers[w := Exited] == s.workers[w := Exited];
      steps := [Take(w)] + rest;
    } else {
      steps := TopThenExit(s, w);
    }
  }

  lemma TopThenExit(s: Pool, w: nat) returns (steps: seq<Step>)
    requires w < |s.workers| && s.stopped && !s.workers[w].Exited? && !s.workers[w].Waiting?
    ensures Run(s, steps).workers == s.workers[w := Exited] && Run(s, steps).dequeued == s.dequeued
  {
    var top: seq<Step> := [];
    if s.workers[w].AtTop? {
      assert s.workers[w := AtTop] == s.workers;
    } else {
      top := ToTop(s, w);
    }
    RunOne(Run(s, top), Loop(w));
    RunAppend(s, top, [Loop(w)]);
    steps := top + [Loop(w)];
  }
}

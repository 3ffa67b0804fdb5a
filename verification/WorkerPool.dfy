// The pool path of `dispatchMany`: W async workers over one shared index and
// one shared pair of budget counters.
//
// JavaScript runs one worker segment at a time, so a run is a sequence of
// segments.  A worker has three kinds of segment: it claims an index (up to
// the first await), its turn settles (the counters move), and it resumes and
// stores the result.  `Pool` is the state between segments; `Run` is every
// interleaving of them.
module WorkerPool {
  import opened Common

  // ---------------------------------------------------------------- values

  /** What a runtime makes of one prompt: a turn, or a thrown error. */
  datatype Turn =
    | Turned(content: Option<string>, isFinal: bool, iterations: nat, sessionId: string)
    | Threw(message: string)

  /** Any behaviour of the runtimes: task ids are never reused, so a function
      of the id and the prompt covers every possible sequence of turns. */
  type TurnFn = (nat, string) -> Turn

  datatype TaskResult = TaskResult(
    taskId: nat, output: Option<string>, success: bool, stepsUsed: nat,
    sessionId: string, error: Option<string>, errorKind: Option<string>)

  datatype Limits = Limits(maxTotalSteps: Option<nat>, maxTotalTasks: Option<nat>)

  datatype Budget = Budget(consumedSteps: nat, dispatchedTasks: nat)

  function Executed(taskId: nat, turn: Turn): TaskResult {
    match turn
    case Turned(content, isFinal, iterations, sessionId) =>
      TaskResult(taskId, content, isFinal, iterations, sessionId, None, None)
    case Threw(message) =>
      TaskResult(taskId, None, false, 0, "", Some(message), None)
  }

  const EXHAUSTED := "orchestrator: task budget exhausted"
  const FAILED := "orchestrator: task failed"
  const PERMANENT := "permanent"

  function Denied(taskId: nat): TaskResult {
    TaskResult(taskId, None, false, 0, "",
               Some(EXHAUSTED), Some(PERMANENT))
  }

  predicate IsDenied(r: TaskResult) {
    r.errorKind == Some(PERMANENT)
  }

  predicate Exhausted(lim: Limits, b: Budget) {
    || (lim.maxTotalSteps.Some? && b.consumedSteps >= lim.maxTotalSteps.value)
    || (lim.maxTotalTasks.Some? && b.dispatchedTasks >= lim.maxTotalTasks.value)
  }

  function Charge(b: Budget, r: TaskResult): Budget {
    Budget(b.consumedSteps + r.stepsUsed, b.dispatchedTasks + 1)
  }

  // ---------------------------------------------------------- step machine

  datatype Phase =
    | Idle
    | Running(index: nat, taskId: nat)
    | Settled(index: nat, result: TaskResult)
    | Done

  /** History of one claim: the id it took and whether the budget let it run. */
  datatype Claimed = Started(taskId: nat) | Refused(taskId: nat)

  datatype Pool = Pool(
    next: nat, workers: seq<Phase>, results: seq<Option<TaskResult>>,
    budget: Budget, taskSeq: nat, claims: seq<Claimed>)

  datatype Step =
    | Claim(w: nat)
    | Settle(w: nat)
    | Store(w: nat)
    | Other(dispatched: nat, consumed: nat, ids: nat)

  /** One run's fixed data: the limits, the tasks and the runtimes' behaviour. */
  datatype Job = Job(lim: Limits, tasks: seq<string>, turn: TurnFn)

  function Start(job: Job, workers: nat, b: Budget, taskSeq: nat): Pool {
    Pool(0, seq(workers, _ => Idle), seq(|job.tasks|, _ => None), b, taskSeq, [])
  }

  predicate Enabled(job: Job, p: Pool, s: Step) {
    match s
    case Claim(w) => w < |p.workers| && p.workers[w].Idle?
    case Settle(w) => w < |p.workers| && p.workers[w].Running? && p.workers[w].index < |job.tasks|
    case Store(w) => w < |p.workers| && p.workers[w].Settled? && p.workers[w].index < |p.results|
    case Other(_, _, _) => true
  }

  function ClaimStep(job: Job, p: Pool, w: nat): Pool
    requires Enabled(job, p, Claim(w))
    requires |p.results| == |job.tasks|
  {
    var index := p.next;
    var q := p.(next := index + 1);
    if index >= |job.tasks| then
      q.(workers := p.workers[w := Done])
    else if Exhausted(job.lim, p.budget) then
      q.(results := p.results[index := Some(Denied(p.taskSeq + 1))],
         taskSeq := p.taskSeq + 1, claims := p.claims + [Refused(p.taskSeq + 1)])
    else
      q.(workers := p.workers[w := Running(index, p.taskSeq + 1)],
         taskSeq := p.taskSeq + 1, claims := p.claims + [Started(p.taskSeq + 1)])
  }

  function SettleStep(job: Job, p: Pool, w: nat): Pool
    requires Enabled(job, p, Settle(w))
  {
    var Running(index, id) := p.workers[w];
    var r := Executed(id, job.turn(id, job.tasks[index]));
    p.(workers := p.workers[w := Settled(index, r)], budget := Charge(p.budget, r))
  }

  function StoreStep(job: Job, p: Pool, w: nat): Pool
    requires Enabled(job, p, Store(w))
  {
    var Settled(index, r) := p.workers[w];
    p.(workers := p.workers[w := Idle], results := p.results[index := Some(r)])
  }

  /** Another dispatch on the same orchestrator moved the shared counters. */
  function OtherStep(p: Pool, dispatched: nat, consumed: nat, ids: nat): Pool {
    p.(budget := Budget(p.budget.consumedSteps + consumed, p.budget.dispatchedTasks + dispatched),
       taskSeq := p.taskSeq + ids)
  }

  function Next(job: Job, p: Pool, s: Step): Pool
    requires |p.results| == |job.tasks| && Enabled(job, p, s)
    ensures |Next(job, p, s).results| == |job.tasks|
  {
    match s
    case Claim(w) => ClaimStep(job, p, w)
    case Settle(w) => SettleStep(job, p, w)
    case Store(w) => StoreStep(job, p, w)
    case Other(d, c, i) => OtherStep(p, d, c, i)
  }

  /** `run` leads from `p` to `q`, each segment being enabled when it happens. */
  ghost predicate Run(job: Job, p: Pool, run: seq<Step>, q: Pool)
    requires |p.results| == |job.tasks|
    decreases |run|
  {
    if run == [] then p == q
    else Enabled(job, p, run[0]) && Run(job, Next(job, p, run[0]), run[1..], q)
  }

  /** No other dispatch is running on this orchestrator. */
  predicate Alone(run: seq<Step>) {
    forall k :: 0 <= k < |run| ==> !run[k].Other?
  }

  // ------------------------------------------------------------- invariant

  predicate Holds(ph: Phase, i: nat) {
    (ph.Running? || ph.Settled?) && ph.index == i
  }

  /** The result the run must leave at the position of a claimed task. */
  function ResultOf(job: Job, c: Claimed, i: nat): TaskResult
    requires i < |job.tasks|
  {
    match c
    case Started(id) => Executed(id, job.turn(id, job.tasks[i]))
    case Refused(id) => Denied(id)
  }

  ghost predicate ClaimsOrdered(p: Pool) {
    && (forall i, j :: 0 <= i < j < |p.claims| ==> p.claims[i].taskId < p.claims[j].taskId)
    && (forall i :: 0 <= i < |p.claims| ==> p.claims[i].taskId <= p.taskSeq)
  }

  ghost predicate RefusalsLast(job: Job, p: Pool) {
    && (forall i, j :: 0 <= i < j < |p.claims| && p.claims[i].Refused? ==> p.claims[j].Refused?)
    && (forall i :: 0 <= i < |p.claims| && p.claims[i].Refused? ==> Exhausted(job.lim, p.budget))
  }

  ghost predicate WorkersOwn(job: Job, p: Pool) {
    && (forall w :: 0 <= w < |p.workers| ==> WorkerOk(job, p, p.workers[w]))
    && (forall w, v :: 0 <= w < v < |p.workers| && (p.workers[w].Running? || p.workers[w].Settled?)
          ==> !Holds(p.workers[v], p.workers[w].index))
  }

  ghost predicate WorkerOk(job: Job, p: Pool, ph: Phase)
  {
    match ph
    case Running(i, id) =>
      i < |p.claims| && i < |p.results| && p.claims[i] == Started(id) && p.results[i] == None
    case Settled(i, r) =>
      && i < |p.claims| && i < |p.results| && i < |job.tasks| && p.claims[i].Started?
      && p.results[i] == None && r == ResultOf(job, p.claims[i], i)
    case _ => true
  }

  ghost predicate SomeoneHolds(p: Pool, i: nat) {
    exists w :: 0 <= w < |p.workers| && Holds(p.workers[w], i)
  }

  ghost predicate ResultsMatch(job: Job, p: Pool)
    requires |p.results| == |job.tasks| && |p.claims| <= |job.tasks|
  {
    && (forall i :: 0 <= i < |p.results| && p.results[i].Some? ==>
          i < |p.claims| && p.results[i].value == ResultOf(job, p.claims[i], i))
    && (forall i :: 0 <= i < |p.claims| && p.results[i] == None ==> SomeoneHolds(p, i))
  }

  ghost predicate Inv(job: Job, p: Pool) {
    && |p.results| == |job.tasks|
    && |p.claims| == Min(p.next, |job.tasks|)
    && ClaimsOrdered(p)
    && RefusalsLast(job, p)
    && WorkersOwn(job, p)
    && ResultsMatch(job, p)
    && (forall w :: 0 <= w < |p.workers| && p.workers[w].Done? ==> p.next >= |job.tasks|)
  }

  lemma StartInv(job: Job, workers: nat, b: Budget, taskSeq: nat)
    ensures Inv(job, Start(job, workers, b, taskSeq))
  {
  }

  lemma ClaimKeepsOrder(job: Job, p: Pool, w: nat)
    requires Inv(job, p) && Enabled(job, p, Claim(w))
    ensures var q := ClaimStep(job, p, w);
      |q.claims| == Min(q.next, |job.tasks|) && ClaimsOrdered(q) && RefusalsLast(job, q)
  {
  }

  lemma ClaimKeepsOwners(job: Job, p: Pool, w: nat)
    requires Inv(job, p) && Enabled(job, p, Claim(w))
    ensures WorkersOwn(job, ClaimStep(job, p, w))
  {
    var q := ClaimStep(job, p, w);
    forall v | 0 <= v < |q.workers|
      ensures WorkerOk(job, q, q.workers[v])
    {
      assert WorkerOk(job, p, p.workers[v]);
    }
    forall u, v | 0 <= u < v < |q.workers| && (q.workers[u].Running? || q.workers[u].Settled?)
      ensures !Holds(q.workers[v], q.workers[u].index)
    {
      assert WorkerOk(job, p, p.workers[u]) && WorkerOk(job, p, p.workers[v]);
    }
  }

  lemma ClaimKeepsResults(job: Job, p: Pool, w: nat)
    requires Inv(job, p) && Enabled(job, p, Claim(w))
    ensures |ClaimStep(job, p, w).claims| <= |job.tasks| && ResultsMatch(job, ClaimStep(job, p, w))
  {
    var q := ClaimStep(job, p, w);
    forall i | 0 <= i < |q.claims| && q.results[i] == None
      ensures SomeoneHolds(q, i)
    {
      if i < |p.claims| {
        assert SomeoneHolds(p, i);
        var v :| 0 <= v < |p.workers| && Holds(p.workers[v], i);
        assert Holds(q.workers[v], i);
      } else {
        assert Holds(q.workers[w], i);
      }
    }
  }

  lemma ClaimKeepsInv(job: Job, p: Pool, w: nat)
    requires Inv(job, p) && Enabled(job, p, Claim(w))
    ensures Inv(job, ClaimStep(job, p, w))
  {
    ClaimKeepsOrder(job, p, w);
    ClaimKeepsOwners(job, p, w);
    ClaimKeepsResults(job, p, w);
  }

  lemma SettleKeepsInv(job: Job, p: Pool, w: nat)
    requires Inv(job, p) && Enabled(job, p, Settle(w))
    ensures Inv(job, SettleStep(job, p, w))
  {
    var q := SettleStep(job, p, w);
    forall i | 0 <= i < |q.claims| && q.results[i] == None
      ensures SomeoneHolds(q, i)
    {
      var v :| 0 <= v < |p.workers| && Holds(p.workers[v], i);
      assert Holds(q.workers[v], i);
    }
  }

  lemma StoreKeepsOwners(job: Job, p: Pool, w: nat)
    requires Inv(job, p) && Enabled(job, p, Store(w))
    ensures WorkersOwn(job, StoreStep(job, p, w))
  {
    var q := StoreStep(job, p, w);
    assert WorkerOk(job, p, p.workers[w]);
    forall v | 0 <= v < |q.workers| ensures WorkerOk(job, q, q.workers[v]) {
      assert WorkerOk(job, p, p.workers[v]);
    }
  }

  lemma StoreKeepsResults(job: Job, p: Pool, w: nat)
    requires Inv(job, p) && Enabled(job, p, Store(w))
    ensures ResultsMatch(job, StoreStep(job, p, w))
  {
    var q := StoreStep(job, p, w);
    assert WorkerOk(job, p, p.workers[w]);
    forall i | 0 <= i < |q.claims| && q.results[i] == None
      ensures SomeoneHolds(q, i)
    {
      assert SomeoneHolds(p, i);
      var v :| 0 <= v < |p.workers| && Holds(p.workers[v], i);
      assert Holds(q.workers[v], i);
    }
  }

  lemma StoreKeepsInv(job: Job, p: Pool, w: nat)
    requires Inv(job, p) && Enabled(job, p, Store(w))
    ensures Inv(job, StoreStep(job, p, w))
  {
    StoreKeepsOwners(job, p, w);
    StoreKeepsResults(job, p, w);
  }

  /** Every segment of every worker, and any interference, keeps the invariant. */
  lemma NextKeepsInv(job: Job, p: Pool, s: Step)
    requires Inv(job, p) && Enabled(job, p, s)
    ensures Inv(job, Next(job, p, s))
  {
    match s
    case Claim(w) => ClaimKeepsInv(job, p, w);
    case Settle(w) => SettleKeepsInv(job, p, w);
    case Store(w) => StoreKeepsInv(job, p, w);
    case Other(d, c, i) =>
      var q := OtherStep(p, d, c, i);
      forall i | 0 <= i < |q.claims| && q.results[i] == None
        ensures SomeoneHolds(q, i)
      {
        assert SomeoneHolds(p, i);
      }
  }

  lemma {:induction false} RunKeepsInv(job: Job, p: Pool, run: seq<Step>, q: Pool)
    requires Inv(job, p) && Run(job, p, run, q)
    ensures Inv(job, q)
    decreases |run|
  {
    if run != [] {
      NextKeepsInv(job, p, run[0]);
      RunKeepsInv(job, Next(job, p, run[0]), run[1..], q);
    }
  }

  // ------------------------------------------------- results, once and last

  predicate Finished(p: Pool) {
    forall w :: 0 <= w < |p.workers| ==> p.workers[w].Done?
  }

  /** Once written, a result is never written again. */
  lemma {:induction false} ResultsAreWrittenOnce(job: Job, p: Pool, run: seq<Step>, q: Pool, i: nat)
    requires Inv(job, p) && Run(job, p, run, q)
    requires i < |p.results| && p.results[i].Some?
    ensures i < |q.results| && q.results[i] == p.results[i]
    decreases |run|
  {
    if run != [] {
      var m := Next(job, p, run[0]);
      assert m.results[i] == p.results[i];
      NextKeepsInv(job, p, run[0]);
      ResultsAreWrittenOnce(job, m, run[1..], q, i);
    }
  }

  /** What `dispatchMany` owes its caller: the result at a position is the turn
      of that very prompt or a refusal, ids grow with the position, and the
      refusals are a suffix. */
  ghost predicate Answered(job: Job, rs: seq<TaskResult>) {
    && |rs| <= |job.tasks|
    && (forall i :: 0 <= i < |rs| ==>
          || rs[i] == Denied(rs[i].taskId)
          || rs[i] == Executed(rs[i].taskId, job.turn(rs[i].taskId, job.tasks[i])))
    && (forall i, j :: 0 <= i < j < |rs| ==> rs[i].taskId < rs[j].taskId)
    && (forall i, j :: 0 <= i < j < |rs| && IsDenied(rs[i]) ==> IsDenied(rs[j]))
  }

  predicate AllSome(rs: seq<Option<TaskResult>>) {
    forall i :: 0 <= i < |rs| ==> rs[i].Some?
  }

  function Values(rs: seq<Option<TaskResult>>): (v: seq<TaskResult>)
    requires AllSome(rs)
  {
    seq(|rs|, i requires 0 <= i < |rs| => rs[i].value)
  }

  lemma FinishedResults(job: Job, q: Pool)
    requires Inv(job, q) && Finished(q) && |q.workers| >= 1
    ensures |q.claims| == |q.results|
    ensures forall i :: 0 <= i < |q.results| ==> q.results[i] == Some(ResultOf(job, q.claims[i], i))
  {
    assert q.workers[0].Done?;
    forall i | 0 <= i < |q.results|
      ensures q.results[i] == Some(ResultOf(job, q.claims[i], i))
    {
      assert !SomeoneHolds(q, i);
    }
  }

  /** Whatever the interleaving and whatever else runs on the orchestrator:
      every task has its one result, as `Answered` says, and a task is refused
      only once the budget is spent. */
  lemma EveryTaskExactlyOnce(job: Job, workers: nat, b: Budget, seq0: nat, run: seq<Step>, q: Pool)
    requires workers >= 1
    requires Run(job, Start(job, workers, b, seq0), run, q) && Finished(q)
    ensures |q.results| == |job.tasks| && AllSome(q.results)
    ensures Answered(job, Values(q.results))
    ensures forall i :: 0 <= i < |q.results| && IsDenied(q.results[i].value) ==> Exhausted(job.lim, q.budget)
  {
    StartInv(job, workers, b, seq0);
    RunKeepsInv(job, Start(job, workers, b, seq0), run, q);
    RunKeepsWorkers(job, Start(job, workers, b, seq0), run, q);
    FinishedResults(job, q);
    ClaimsAnswer(job, q, Values(q.results));
  }

  lemma ClaimsAnswer(job: Job, q: Pool, rs: seq<TaskResult>)
    requires |rs| == |q.claims| <= |job.tasks| && ClaimsOrdered(q) && RefusalsLast(job, q)
    requires forall i :: 0 <= i < |rs| ==> rs[i] == ResultOf(job, q.claims[i], i)
    ensures Answered(job, rs)
    ensures forall i :: 0 <= i < |rs| && IsDenied(rs[i]) ==> Exhausted(job.lim, q.budget)
  {
    forall i | 0 <= i < |rs|
      ensures rs[i].taskId == q.claims[i].taskId && (IsDenied(rs[i]) <==> q.claims[i].Refused?)
    {
    }
  }

  lemma {:induction false} RunKeepsWorkers(job: Job, p: Pool, run: seq<Step>, q: Pool)
    requires Inv(job, p) && Run(job, p, run, q)
    ensures |q.workers| == |p.workers|
    decreases |run|
  {
    if run != [] {
      NextKeepsInv(job, p, run[0]);
      RunKeepsWorkers(job, Next(job, p, run[0]), run[1..], q);
    }
  }

  // ------------------------------------------------------------ accounting

  /** Turns that have been started and have not moved the counters yet. */
  function InFlight(ws: seq<Phase>): nat {
    if ws == [] then 0 else (if ws[0].Running? then 1 else 0) + InFlight(ws[1..])
  }

  function InFlightSteps(job: Job, ws: seq<Phase>): nat {
    if ws == [] then 0
    else (match ws[0]
          case Running(i, id) =>
            if i < |job.tasks| then Executed(id, job.turn(id, job.tasks[i])).stepsUsed else 0
          case _ => 0) + InFlightSteps(job, ws[1..])
  }

  function StartedCount(claims: seq<Claimed>): nat {
    if claims == [] then 0
    else StartedCount(claims[..|claims| - 1]) + if claims[|claims| - 1].Started? then 1 else 0
  }

  function StartedSteps(job: Job, claims: seq<Claimed>): nat
    requires |claims| <= |job.tasks|
  {
    if claims == [] then 0
    else StartedSteps(job, claims[..|claims| - 1])
         + ResultOf(job, claims[|claims| - 1], |claims| - 1).stepsUsed
  }

  lemma {:induction false} InFlightUpdate(job: Job, ws: seq<Phase>, w: nat, ph: Phase)
    requires w < |ws|
    ensures InFlight(ws[w := ph]) - InFlight(ws) == InFlight([ph]) - InFlight([ws[w]])
    ensures InFlightSteps(job, ws[w := ph]) - InFlightSteps(job, ws)
         == InFlightSteps(job, [ph]) - InFlightSteps(job, [ws[w]])
    ensures InFlight([ws[w]]) <= InFlight(ws) <= |ws|
    ensures !ws[w].Running? ==> InFlight(ws) <= |ws| - 1
    decreases |ws|
  {
    InFlightAtMost(ws[1..]);
    if w == 0 {
      assert ws[w := ph][1..] == ws[1..];
    } else {
      assert ws[w := ph][1..] == ws[1..][w - 1 := ph];
      InFlightUpdate(job, ws[1..], w - 1, ph);
    }
  }

  lemma {:induction false} InFlightAtMost(ws: seq<Phase>)
    ensures InFlight(ws) <= |ws|
  {
    if ws != [] { InFlightAtMost(ws[1..]); }
  }

  lemma {:induction false} NoneRunning(job: Job, ws: seq<Phase>)
    requires forall w :: 0 <= w < |ws| ==> !ws[w].Running?
    ensures InFlight(ws) == 0 && InFlightSteps(job, ws) == 0
  {
    if ws != [] {
      assert !ws[0].Running?;
      NoneRunning(job, ws[1..]);
    }
  }

  /** Conservation: the counters plus what is still in flight are the starting
      counters plus everything that was ever started. */
  ghost predicate Balanced(job: Job, p: Pool, b: Budget)
    requires |p.claims| <= |job.tasks|
  {
    && p.budget.dispatchedTasks + InFlight(p.workers) == b.dispatchedTasks + StartedCount(p.claims)
    && p.budget.consumedSteps + InFlightSteps(job, p.workers)
       == b.consumedSteps + StartedSteps(job, p.claims)
  }

  /** Of `start` tasks, `now` is as far as `w` workers may get: nothing starts at
      or past the limit, and below it at most w - 1 are started too many. */
  predicate WithinLimit(lim: Limits, start: nat, now: nat, w: nat) {
    lim.maxTotalTasks.Some? ==>
      if start >= lim.maxTotalTasks.value then now == start else now <= lim.maxTotalTasks.value - 1 + w
  }

  ghost predicate WithinOvershoot(job: Job, p: Pool, b: Budget) {
    && p.budget.dispatchedTasks >= b.dispatchedTasks
    && WithinLimit(job.lim, b.dispatchedTasks, p.budget.dispatchedTasks + InFlight(p.workers), |p.workers|)
  }

  lemma ClaimKeepsBalance(job: Job, p: Pool, w: nat, b: Budget)
    requires |p.claims| <= |job.tasks| == |p.results| && |p.claims| == Min(p.next, |job.tasks|)
    requires Enabled(job, p, Claim(w)) && Balanced(job, p, b) && WithinOvershoot(job, p, b)
    ensures |ClaimStep(job, p, w).claims| <= |job.tasks|
    ensures Balanced(job, ClaimStep(job, p, w), b) && WithinOvershoot(job, ClaimStep(job, p, w), b)
  {
    var q := ClaimStep(job, p, w);
    InFlightUpdate(job, p.workers, w, q.workers[w]);
    assert p.workers[w := q.workers[w]] == q.workers && q.budget == p.budget;
    if q.claims != p.claims {
      assert q.claims[..|q.claims| - 1] == p.claims;
    }
  }

  lemma SettleKeepsBalance(job: Job, p: Pool, w: nat, b: Budget)
    requires |p.claims| <= |job.tasks|
    requires Enabled(job, p, Settle(w)) && Balanced(job, p, b) && WithinOvershoot(job, p, b)
    ensures Balanced(job, SettleStep(job, p, w), b) && WithinOvershoot(job, SettleStep(job, p, w), b)
  {
    InFlightUpdate(job, p.workers, w, SettleStep(job, p, w).workers[w]);
  }

  lemma NextKeepsBalance(job: Job, p: Pool, s: Step, b: Budget)
    requires Inv(job, p) && Enabled(job, p, s) && !s.Other?
    requires Balanced(job, p, b) && WithinOvershoot(job, p, b)
    ensures |Next(job, p, s).claims| <= |job.tasks|
    ensures Balanced(job, Next(job, p, s), b) && WithinOvershoot(job, Next(job, p, s), b)
  {
    match s
    case Claim(w) => ClaimKeepsBalance(job, p, w, b);
    case Settle(w) => SettleKeepsBalance(job, p, w, b);
    case Store(w) => InFlightUpdate(job, p.workers, w, Idle);
  }

  lemma {:induction false} RunKeepsBalance(job: Job, p: Pool, run: seq<Step>, q: Pool, b: Budget)
    requires Inv(job, p) && Run(job, p, run, q) && Alone(run)
    requires Balanced(job, p, b) && WithinOvershoot(job, p, b)
    ensures |q.claims| <= |job.tasks| && Balanced(job, q, b) && WithinOvershoot(job, q, b)
    decreases |run|
  {
    if run != [] {
      assert !run[0].Other?;
      NextKeepsInv(job, p, run[0]);
      NextKeepsBalance(job, p, run[0], b);
      RunKeepsBalance(job, Next(job, p, run[0]), run[1..], q, b);
    }
  }

  /** With no other dispatch running, at every moment of every interleaving:
      from below the limit, the executed tasks plus those in flight exceed it by
      at most W - 1; from the limit on, nothing is started at all. */
  lemma OvershootBounded(job: Job, workers: nat, b: Budget, seq0: nat, run: seq<Step>, q: Pool)
    requires Run(job, Start(job, workers, b, seq0), run, q) && Alone(run)
    ensures WithinLimit(job.lim, b.dispatchedTasks, q.budget.dispatchedTasks + InFlight(q.workers), workers)
  {
    var p := Start(job, workers, b, seq0);
    StartInv(job, workers, b, seq0);
    NoneRunning(job, p.workers);
    RunKeepsBalance(job, p, run, q, b);
    RunKeepsWorkers(job, p, run, q);
  }

  function ExecutedCount(rs: seq<TaskResult>): nat {
    if rs == [] then 0
    else ExecutedCount(rs[..|rs| - 1]) + if IsDenied(rs[|rs| - 1]) then 0 else 1
  }

  function SumSteps(rs: seq<TaskResult>): nat {
    if rs == [] then 0 else SumSteps(rs[..|rs| - 1]) + rs[|rs| - 1].stepsUsed
  }

  lemma {:induction false} ClaimsAndResultsAgree(job: Job, claims: seq<Claimed>, rs: seq<TaskResult>)
    requires |claims| == |rs| <= |job.tasks|
    requires forall i :: 0 <= i < |rs| ==> rs[i] == ResultOf(job, claims[i], i)
    ensures ExecutedCount(rs) == StartedCount(claims)
    ensures SumSteps(rs) == StartedSteps(job, claims)
    decreases |rs|
  {
    if rs != [] {
      ClaimsAndResultsAgree(job, claims[..|rs| - 1], rs[..|rs| - 1]);
    }
  }

  /** At the end the counters have grown by exactly what the results report. */
  lemma CountersMatchResults(job: Job, workers: nat, b: Budget, seq0: nat, run: seq<Step>, q: Pool)
    requires workers >= 1 && Run(job, Start(job, workers, b, seq0), run, q) && Alone(run) && Finished(q)
    ensures AllSome(q.results)
    ensures q.budget.dispatchedTasks == b.dispatchedTasks + ExecutedCount(Values(q.results))
    ensures q.budget.consumedSteps == b.consumedSteps + SumSteps(Values(q.results))
  {
    var p := Start(job, workers, b, seq0);
    StartInv(job, workers, b, seq0);
    NoneRunning(job, p.workers);
    RunKeepsBalance(job, p, run, q, b);
    RunKeepsInv(job, p, run, q);
    RunKeepsWorkers(job, p, run, q);
    NoneRunning(job, q.workers);
    FinishedResults(job, q);
    ClaimsAndResultsAgree(job, q.claims, Values(q.results));
  }

  // ------------------------------------------------- the bound on the steps

  /** No turn takes more than `k` iterations. */
  ghost predicate StepsAtMost(job: Job, k: nat) {
    forall id: nat, i: nat :: i < |job.tasks| ==> Executed(id, job.turn(id, job.tasks[i])).stepsUsed <= k
  }

  /** From `start` steps on, as far as `w` workers may get with turns of at most
      `k`: nothing starts at or past the limit, and below it at most all of them
      are on their way. */
  predicate WithinStepLimit(lim: Limits, start: nat, now: nat, w: nat, k: nat) {
    lim.maxTotalSteps.Some? ==>
      if start >= lim.maxTotalSteps.value then now == start else now <= lim.maxTotalSteps.value - 1 + w * k
  }

  ghost predicate WithinSteps(job: Job, p: Pool, b: Budget, k: nat) {
    && p.budget.consumedSteps >= b.consumedSteps
    && WithinStepLimit(job.lim, b.consumedSteps, p.budget.consumedSteps + InFlightSteps(job, p.workers), |p.workers|, k)
  }

  lemma {:induction false} InFlightStepsAtMost(job: Job, ws: seq<Phase>, k: nat)
    requires StepsAtMost(job, k)
    ensures InFlightSteps(job, ws) <= |ws| * k
  {
    if ws != [] {
      InFlightStepsAtMost(job, ws[1..], k);
      assert |ws| * k == k + (|ws| - 1) * k;
    }
  }

  lemma NextKeepsSteps(job: Job, p: Pool, s: Step, b: Budget, k: nat)
    requires Inv(job, p) && Enabled(job, p, s) && !s.Other? && StepsAtMost(job, k) && WithinSteps(job, p, b, k)
    ensures WithinSteps(job, Next(job, p, s), b, k)
  {
    var q := Next(job, p, s);
    InFlightUpdate(job, p.workers, s.w, q.workers[s.w]);
    assert q.workers == p.workers[s.w := q.workers[s.w]];
    InFlightStepsAtMost(job, q.workers, k);
  }

  lemma {:induction false} RunKeepsSteps(job: Job, p: Pool, run: seq<Step>, q: Pool, b: Budget, k: nat)
    requires Inv(job, p) && Run(job, p, run, q) && Alone(run) && StepsAtMost(job, k) && WithinSteps(job, p, b, k)
    ensures WithinSteps(job, q, b, k)
    decreases |run|
  {
    if run != [] {
      assert !run[0].Other?;
      NextKeepsInv(job, p, run[0]);
      NextKeepsSteps(job, p, run[0], b, k);
      RunKeepsSteps(job, Next(job, p, run[0]), run[1..], q, b, k);
    }
  }

  /** The steps exceed their limit by at most what W turns take, less one. */
  lemma StepOvershootBounded(job: Job, workers: nat, b: Budget, seq0: nat, run: seq<Step>, q: Pool, k: nat)
    requires Run(job, Start(job, workers, b, seq0), run, q) && Alone(run) && StepsAtMost(job, k)
    ensures WithinStepLimit(job.lim, b.consumedSteps, q.budget.consumedSteps + InFlightSteps(job, q.workers), workers, k)
  {
    var p := Start(job, workers, b, seq0);
    StartInv(job, workers, b, seq0);
    NoneRunning(job, p.workers);
    RunKeepsSteps(job, p, run, q, b, k);
    RunKeepsWorkers(job, p, run, q);
  }

  /** Once nothing is in flight, the steps themselves are within the bound. */
  ghost predicate StepsWithin(job: Job, start: nat, now: nat, w: nat) {
    forall k: nat :: StepsAtMost(job, k) ==> WithinStepLimit(job.lim, start, now, w, k)
  }

  lemma NoStepsTaken(job: Job, start: nat, w: nat)
    ensures StepsWithin(job, start, start, w)
  {
  }

  lemma MoreWorkersMoreSteps(job: Job, start: nat, now: nat, w: nat, w': nat)
    requires StepsWithin(job, start, now, w) && w <= w'
    ensures StepsWithin(job, start, now, w')
  {
    forall k: nat | StepsAtMost(job, k) ensures WithinStepLimit(job.lim, start, now, w', k) {
      assert w * k + (w' - w) * k == w' * k;
    }
  }

  lemma FinalSteps(job: Job, workers: nat, b: Budget, seq0: nat, run: seq<Step>, q: Pool)
    requires Run(job, Start(job, workers, b, seq0), run, q) && Alone(run) && Finished(q)
    ensures StepsWithin(job, b.consumedSteps, q.budget.consumedSteps, workers)
  {
    NoneRunning(job, q.workers);
    forall k: nat | StepsAtMost(job, k)
      ensures WithinStepLimit(job.lim, b.consumedSteps, q.budget.consumedSteps, workers, k)
    {
      StepOvershootBounded(job, workers, b, seq0, run, q, k);
    }
  }

  // ------------------------------------------------------ the bounds are tight

  /** Every turn takes `k` iterations. */
  ghost predicate StepsAre(job: Job, k: nat) {
    forall id: nat, i: nat :: i < |job.tasks| ==> Executed(id, job.turn(id, job.tasks[i])).stepsUsed == k
  }

  /** The budget is not spent after `n` turns more, of at most `k` steps if steps
      are limited. */
  ghost predicate Lasts(job: Job, b: Budget, n: nat, k: nat) {
    && (job.lim.maxTotalTasks.Some? ==> b.dispatchedTasks + n < job.lim.maxTotalTasks.value)
    && (job.lim.maxTotalSteps.Some? ==> StepsAtMost(job, k) && b.consumedSteps + n * k < job.lim.maxTotalSteps.value)
  }

  /** The first `w` workers are on a task, the others idle. */
  predicate BusyUpTo(job: Job, ws: seq<Phase>, w: nat) {
    forall v :: 0 <= v < |ws| ==> if v < w then ws[v].Running? && ws[v].index < |job.tasks| else ws[v].Idle?
  }

  /** Every worker runs up to its first await, as they do when they are made. */
  function AllClaim(w: nat, workers: nat): seq<Step>
    requires w <= workers
    decreases workers - w
  {
    if w == workers then [] else [Claim(w)] + AllClaim(w + 1, workers)
  }

  lemma ClaimMakesBusy(job: Job, p: Pool, w: nat)
    requires |p.results| == |job.tasks| && w < |p.workers| && BusyUpTo(job, p.workers, w)
    requires p.next < |job.tasks| && !Exhausted(job.lim, p.budget)
    ensures BusyUpTo(job, ClaimStep(job, p, w).workers, w + 1)
  {
  }

  lemma {:induction false} ClaimsReach(job: Job, p: Pool, w: nat) returns (q: Pool)
    requires |p.results| == |job.tasks| && w <= |p.workers| && BusyUpTo(job, p.workers, w)
    requires p.next + (|p.workers| - w) <= |job.tasks| && !Exhausted(job.lim, p.budget)
    ensures Run(job, p, AllClaim(w, |p.workers|), q) && Alone(AllClaim(w, |p.workers|))
    ensures |q.workers| == |p.workers| && BusyUpTo(job, q.workers, |q.workers|) && q.budget == p.budget
    ensures |q.results| == |job.tasks| && q.next == p.next + (|p.workers| - w)
    decreases |p.workers| - w
  {
    if w == |p.workers| {
      q := p;
    } else {
      var m := ClaimStep(job, p, w);
      ClaimMakesBusy(job, p, w);
      q := ClaimsReach(job, m, w + 1);
      assert AllClaim(w, |p.workers|)[1..] == AllClaim(w + 1, |p.workers|);
    }
  }

  const ROUND := [Settle(0), Store(0), Claim(0)]

  /** The first worker ends its turn and starts the next. */
  lemma OneRound(job: Job, p: Pool, k: nat) returns (q: Pool)
    requires |p.results| == |job.tasks| && |p.workers| >= 1 && BusyUpTo(job, p.workers, |p.workers|)
    requires p.next < |job.tasks| && Lasts(job, p.budget, 1, k)
    ensures Run(job, p, ROUND, q) && |q.results| == |job.tasks|
    ensures |q.workers| == |p.workers| && BusyUpTo(job, q.workers, |q.workers|) && q.next == p.next + 1
    ensures Spent(job, p.budget, q.budget, 1, k)
  {
    var a := SettleStep(job, p, 0);
    var b := StoreStep(job, a, 0);
    q := ClaimStep(job, b, 0);
    assert ROUND[1..] == [Store(0), Claim(0)] && ROUND[1..][1..] == [Claim(0)] && ROUND[1..][1..][1..] == [];
    assert Run(job, b, ROUND[1..][1..], q);
    assert Run(job, a, ROUND[1..], q);
  }

  /** `n` turns have been paid for. */
  ghost predicate Spent(job: Job, b: Budget, b': Budget, n: nat, k: nat) {
    && b'.dispatchedTasks == b.dispatchedTasks + n
    && (StepsAtMost(job, k) ==> b'.consumedSteps <= b.consumedSteps + n * k)
    && (StepsAre(job, k) ==> b'.consumedSteps == b.consumedSteps + n * k)
  }

  lemma {:induction false} RunJoin(job: Job, p: Pool, run: seq<Step>, m: Pool, more: seq<Step>, q: Pool)
    requires |p.results| == |job.tasks| == |m.results|
    requires Run(job, p, run, m) && Run(job, m, more, q)
    ensures Run(job, p, run + more, q)
    decreases |run|
  {
    if run == [] {
      assert run + more == more;
    } else {
      RunJoin(job, Next(job, p, run[0]), run[1..], m, more, q);
      assert (run + more)[1..] == run[1..] + more;
    }
  }

  /** While the others are still at their first turns, the first worker gets
      through `n` more. */
  lemma {:induction false} RoundsReach(job: Job, p: Pool, n: nat, k: nat) returns (run: seq<Step>, q: Pool)
    requires |p.results| == |job.tasks| && |p.workers| >= 1 && BusyUpTo(job, p.workers, |p.workers|)
    requires p.next + n <= |job.tasks| && Lasts(job, p.budget, n, k)
    ensures Run(job, p, run, q) && Alone(run) && |q.workers| == |p.workers|
    ensures BusyUpTo(job, q.workers, |q.workers|) && Spent(job, p.budget, q.budget, n, k)
    decreases n
  {
    if n == 0 {
      run, q := [], p;
    } else {
      assert n * k == k + (n - 1) * k && (n - 1) * k >= 0;
      var m := OneRound(job, p, k);
      var more;
      more, q := RoundsReach(job, m, n - 1, k);
      RunJoin(job, p, ROUND, m, more, q);
      run := ROUND + more;
    }
  }

  /** All workers on their first turns, then `n` more turns of the first. */
  lemma {:induction false} EagerRun(job: Job, workers: nat, b: Budget, seq0: nat, n: nat, k: nat) returns (run: seq<Step>, q: Pool)
    requires workers >= 1 && n + workers <= |job.tasks| && Lasts(job, b, n, k)
    ensures Run(job, Start(job, workers, b, seq0), AllClaim(0, workers) + run, q) && Alone(AllClaim(0, workers) + run)
    ensures |q.workers| == workers && BusyUpTo(job, q.workers, workers) && Spent(job, b, q.budget, n, k)
  {
    var p := Start(job, workers, b, seq0);
    assert n * k >= 0;
    var m := ClaimsReach(job, p, 0);
    run, q := RoundsReach(job, m, n, k);
    RunJoin(job, p, AllClaim(0, workers), m, run, q);
  }

  lemma {:induction false} AllBusy(job: Job, ws: seq<Phase>, k: nat)
    requires BusyUpTo(job, ws, |ws|)
    ensures InFlight(ws) == |ws|
    ensures StepsAre(job, k) ==> InFlightSteps(job, ws) == |ws| * k
  {
    if ws != [] {
      assert ws[0].Running?;
      AllBusy(job, ws[1..], k);
      assert |ws| * k == k + (|ws| - 1) * k;
    }
  }

  /** The bound on the tasks is tight: from every start below the limit, with
      tasks enough and a step budget that outlasts the turns that end, some run
      reaches it after all workers have started. */
  lemma OvershootReached(job: Job, workers: nat, b: Budget, seq0: nat, k: nat)
    requires workers >= 1 && job.lim.maxTotalTasks.Some? && b.dispatchedTasks < job.lim.maxTotalTasks.value
    requires var n := job.lim.maxTotalTasks.value - 1 - b.dispatchedTasks;
      n + workers <= |job.tasks| && Lasts(job, b, n, k)
    ensures exists run, q ::
      && Run(job, Start(job, workers, b, seq0), AllClaim(0, workers) + run, q) && Alone(AllClaim(0, workers) + run)
      && q.budget.dispatchedTasks + InFlight(q.workers) == job.lim.maxTotalTasks.value - 1 + workers
  {
    var run, q := EagerRun(job, workers, b, seq0, job.lim.maxTotalTasks.value - 1 - b.dispatchedTasks, k);
    AllBusy(job, q.workers, k);
  }

  /** So is the bound on the steps, with turns that take `k` of them each. */
  lemma StepOvershootReached(job: Job, workers: nat, b: Budget, seq0: nat, n: nat, k: nat)
    requires workers >= 1 && n + workers <= |job.tasks| && StepsAre(job, k) && Lasts(job, b, n, k)
    requires job.lim.maxTotalSteps == Some(b.consumedSteps + n * k + 1)
    ensures exists run, q ::
      && Run(job, Start(job, workers, b, seq0), AllClaim(0, workers) + run, q) && Alone(AllClaim(0, workers) + run)
      && q.budget.consumedSteps + InFlightSteps(job, q.workers) == job.lim.maxTotalSteps.value - 1 + workers * k
  {
    var run, q := EagerRun(job, workers, b, seq0, n, k);
    AllBusy(job, q.workers, k);
  }

  // ------------------------------------------------- runs grow at their end

  lemma {:induction false} RunExtend(job: Job, p: Pool, run: seq<Step>, m: Pool, s: Step)
    requires |p.results| == |job.tasks| && Run(job, p, run, m)
    requires |m.results| == |job.tasks| && Enabled(job, m, s)
    ensures Run(job, p, run + [s], Next(job, m, s))
    decreases |run|
  {
    if run == [] {
      assert [s][1..] == [];
      assert run + [s] == [s];
    } else {
      RunExtend(job, Next(job, p, run[0]), run[1..], m, s);
      assert (run + [s])[1..] == run[1..] + [s];
    }
  }

  /** Work left, for the scheduler loop: a claim spends an index or a worker. */
  function Remaining(n: nat, next: nat, ws: seq<Phase>): nat {
    3 * Max(n - next, 0) + Weight(ws)
  }

  function PhaseWeight(ph: Phase): nat {
    match ph
    case Running(_, _) => 3
    case Settled(_, _) => 2
    case Idle => 1
    case Done => 0
  }

  function Weight(ws: seq<Phase>): nat {
    if ws == [] then 0 else PhaseWeight(ws[0]) + Weight(ws[1..])
  }

  lemma {:induction false} WeightUpdate(ws: seq<Phase>, w: nat, ph: Phase)
    requires w < |ws|
    ensures Weight(ws[w := ph]) == Weight(ws) - PhaseWeight(ws[w]) + PhaseWeight(ph)
    ensures Weight(ws) >= PhaseWeight(ws[w])
  {
    if w == 0 {
      assert ws[w := ph][1..] == ws[1..];
    } else {
      assert ws[w := ph][1..] == ws[1..][w - 1 := ph];
      WeightUpdate(ws[1..], w - 1, ph);
    }
  }

  // ------------------------------------------------ one dispatch at a time

  predicate AtLeast(b: Budget, b': Budget) {
    b.consumedSteps <= b'.consumedSteps && b.dispatchedTasks <= b'.dispatchedTasks
  }

  function DispatchOne(lim: Limits, b: Budget, taskSeq: nat, prompt: string, turn: TurnFn): (TaskResult, Budget) {
    if Exhausted(lim, b) then (Denied(taskSeq + 1), b)
    else
      var r := Executed(taskSeq + 1, turn(taskSeq + 1, prompt));
      (r, Charge(b, r))
  }

  /** Once a limit that is set has been reached, a dispatch is refused at no cost;
      until then it is a turn, and costs one task and the iterations it took. */
  lemma DispatchOneMeaning(lim: Limits, b: Budget, taskSeq: nat, prompt: string, turn: TurnFn)
    ensures var (r, b') := DispatchOne(lim, b, taskSeq, prompt, turn);
      var id := taskSeq + 1;
      if (lim.maxTotalSteps.Some? && b.consumedSteps >= lim.maxTotalSteps.value)
        || (lim.maxTotalTasks.Some? && b.dispatchedTasks >= lim.maxTotalTasks.value)
      then
        && r == TaskResult(id, None, false, 0, "", Some("orchestrator: task budget exhausted"), Some("permanent"))
        && b' == b
      else
        && b' == Budget(b.consumedSteps + r.stepsUsed, b.dispatchedTasks + 1)
        && r == match turn(id, prompt)
             case Turned(content, isFinal, iterations, sessionId) =>
               TaskResult(id, content, isFinal, iterations, sessionId, None, None)
             case Threw(message) => TaskResult(id, None, false, 0, "", Some(message), None)
  {
  }

  // ---------------------------------------------------------------- pipeline

  datatype PipelineOutcome = PipelineOutcome(
    results: seq<TaskResult>, finalOutput: Option<string>, totalSteps: nat, success: bool,
    error: Option<string>)

  const HANDOVER: string := "\n\nPrevious step output:\n"

  function PromptFor(i: nat, task: string, previous: Option<string>): string {
    if i == 0 || previous.None? then task else task + HANDOVER + previous.value
  }

  function LastOutput(results: seq<TaskResult>): Option<string> {
    if results == [] then None else results[|results| - 1].output
  }

  function Stopped(results: seq<TaskResult>, totalSteps: nat, r: TaskResult): PipelineOutcome {
    PipelineOutcome(results, LastOutput(results), totalSteps, false,
                    if r.error.Some? then r.error else Some(FAILED))
  }

  /** The turn of the task after `done`, prompted with the last output of `done`. */
  function Stage(id: nat, tasks: seq<string>, turn: TurnFn, done: seq<TaskResult>): TaskResult
    requires |done| < |tasks|
  {
    Executed(id, turn(id, PromptFor(|done|, tasks[|done|], LastOutput(done))))
  }

  /** Every result is the successful stage after the results before it. */
  ghost predicate Chain(tasks: seq<string>, turn: TurnFn, rs: seq<TaskResult>)
  {
    rs == [] ||
    var before, last := rs[..|rs| - 1], rs[|rs| - 1];
    && |rs| <= |tasks| && last.success
    && last == Stage(last.taskId, tasks, turn, before)
    && Chain(tasks, turn, before)
  }

  predicate NumberedFrom(rs: seq<TaskResult>, seq0: nat) {
    forall i :: 0 <= i < |rs| ==> rs[i].taskId == seq0 + 1 + i
  }

  function Paid(b0: Budget, rs: seq<TaskResult>): Budget {
    Budget(b0.consumedSteps + SumSteps(rs), b0.dispatchedTasks + |rs|)
  }

  /** `r` is the turn of the task after `rs`: it is prompted with that task and,
      if the result before it has an output, with that output. */
  ghost predicate HandedOn(tasks: seq<string>, turn: TurnFn, rs: seq<TaskResult>, r: TaskResult)
    requires |rs| < |tasks|
  {
    if rs != [] && rs[|rs| - 1].output.Some? then
      r == Executed(r.taskId, turn(r.taskId, tasks[|rs|] + "\n\nPrevious step output:\n" + rs[|rs| - 1].output.value))
    else r == Executed(r.taskId, turn(r.taskId, tasks[|rs|]))
  }

  /** Every result is a success handed on from the ones before it. */
  ghost predicate AllHandedOn(tasks: seq<string>, turn: TurnFn, rs: seq<TaskResult>) {
    |rs| <= |tasks| && forall i :: 0 <= i < |rs| ==> rs[i].success && HandedOn(tasks, turn, rs[..i], rs[i])
  }

  lemma StageIsHandedOn(id: nat, tasks: seq<string>, turn: TurnFn, done: seq<TaskResult>)
    requires |done| < |tasks|
    ensures Stage(id, tasks, turn, done).taskId == id && HandedOn(tasks, turn, done, Stage(id, tasks, turn, done))
  {
  }

  lemma {:induction false} ChainIsHandedOn(tasks: seq<string>, turn: TurnFn, rs: seq<TaskResult>)
    requires Chain(tasks, turn, rs)
    ensures AllHandedOn(tasks, turn, rs)
  {
    if rs != [] {
      var n := |rs| - 1;
      ChainIsHandedOn(tasks, turn, rs[..n]);
      StageIsHandedOn(rs[n].taskId, tasks, turn, rs[..n]);
      forall i | 0 <= i < |rs| ensures rs[i].success && HandedOn(tasks, turn, rs[..i], rs[i]) {
        if i < n { assert rs[..n][i] == rs[i] && rs[..n][..i] == rs[..i]; }
      }
    }
  }

  /** The task the pipeline stopped at was refused or failed, and its error is
      the one reported. */
  ghost predicate StoppedBy(tasks: seq<string>, turn: TurnFn, o: PipelineOutcome, failed: TaskResult) {
    && |o.results| < |tasks| && !failed.success
    && (failed == Denied(failed.taskId) || HandedOn(tasks, turn, o.results, failed))
    && o.error == if failed.error.Some? then failed.error else Some("orchestrator: task failed")
  }

  /** Whatever else runs: the results are the successful prefix, each prompted
      with the output of the one before; the final output is the last of them,
      the reported steps are theirs alone, and the error is that of the task it
      stopped at. */
  ghost predicate PipelineShaped(tasks: seq<string>, turn: TurnFn, o: PipelineOutcome)
  {
    && AllHandedOn(tasks, turn, o.results)
    && o.totalSteps == SumSteps(o.results)
    && o.finalOutput == (if o.results == [] then None else o.results[|o.results| - 1].output)
    && (o.success <==> |o.results| == |tasks|)
    && (o.success ==> o.error == None)
    && (!o.success ==> exists failed :: StoppedBy(tasks, turn, o, failed))
  }

  /** With nothing else running, the ids are consecutive and the budget has paid
      for the results and for the one turn that failed, if it let it run. */
  ghost predicate PipelinePaid(lim: Limits, b0: Budget, seq0: nat, tasks: seq<string>, turn: TurnFn,
                         o: PipelineOutcome, b: Budget)
  {
    && NumberedFrom(o.results, seq0) && |o.results| <= |tasks|
    && (o.success ==> b == Paid(b0, o.results))
    && (!o.success ==> |o.results| < |tasks| && exists failed :: StopPaidFor(lim, b0, seq0, tasks, turn, o, b, failed))
  }

  /** `failed` is the task after the results, and the budget has paid for it,
      unless it was spent before. */
  ghost predicate StopPaidFor(lim: Limits, b0: Budget, seq0: nat, tasks: seq<string>, turn: TurnFn,
                              o: PipelineOutcome, b: Budget, failed: TaskResult)
    requires |o.results| < |tasks|
  {
    && failed.taskId == seq0 + 1 + |o.results| && HandedOn(tasks, turn, o.results, failed)
    && StopPaid(lim, Paid(b0, o.results), failed, b)
  }

  predicate StopPaid(lim: Limits, reached: Budget, failed: TaskResult, b: Budget) {
    if Exhausted(lim, reached) then b == reached else !failed.success && b == Charge(reached, failed)
  }

  lemma {:induction false} AdvancesPaid(b0: Budget, seq0: nat, done: seq<TaskResult>, r: TaskResult)
    requires NumberedFrom(done, seq0) && r.taskId == seq0 + 1 + |done|
    ensures NumberedFrom(done + [r], seq0) && Charge(Paid(b0, done), r) == Paid(b0, done + [r])
  {
    assert (done + [r])[..|done|] == done;
  }

  lemma {:induction false} EndsShaped(tasks: seq<string>, turn: TurnFn, done: seq<TaskResult>)
    requires |done| == |tasks| && Chain(tasks, turn, done)
    ensures PipelineShaped(tasks, turn, PipelineOutcome(done, LastOutput(done), SumSteps(done), true, None))
  {
    ChainIsHandedOn(tasks, turn, done);
  }

  lemma {:induction false} StopsShaped(tasks: seq<string>, turn: TurnFn, done: seq<TaskResult>, r: TaskResult)
    requires |done| < |tasks| && Chain(tasks, turn, done) && !r.success
    requires r == Denied(r.taskId) || r == Stage(r.taskId, tasks, turn, done)
    ensures PipelineShaped(tasks, turn, Stopped(done, SumSteps(done), r))
  {
    ChainIsHandedOn(tasks, turn, done);
    StageIsHandedOn(r.taskId, tasks, turn, done);
    assert StoppedBy(tasks, turn, Stopped(done, SumSteps(done), r), r);
  }

  lemma {:induction false} StopsPaid(lim: Limits, b0: Budget, seq0: nat, tasks: seq<string>, turn: TurnFn,
                                     done: seq<TaskResult>, r: TaskResult, b: Budget)
    requires |done| < |tasks| && NumberedFrom(done, seq0)
    requires StopPaid(lim, Paid(b0, done), Stage(seq0 + 1 + |done|, tasks, turn, done), b)
    ensures PipelinePaid(lim, b0, seq0, tasks, turn, Stopped(done, SumSteps(done), r), b)
  {
    var id := seq0 + 1 + |done|;
    StageIsHandedOn(id, tasks, turn, done);
    assert StopPaidFor(lim, b0, seq0, tasks, turn, Stopped(done, SumSteps(done), r), b, Stage(id, tasks, turn, done));
  }

  /** `r` is what a dispatch with id `id` made of a task whose turn is `stage`. */
  predicate IsDispatched(lim: Limits, b: Budget, id: nat, r: TaskResult, b': Budget, stage: TaskResult) {
    && r.taskId == id && (r == Denied(id) || r == stage)
    && (r.success ==> r == stage && b' == Charge(b, r))
    && (!r.success ==> StopPaid(lim, b, stage, b'))
  }

  lemma {:induction false} DispatchIsStage(lim: Limits, b: Budget, id: nat, tasks: seq<string>, turn: TurnFn, done: seq<TaskResult>)
    requires |done| < |tasks|
    ensures var (r, b') := DispatchOne(lim, b, id, PromptFor(|done|, tasks[|done|], LastOutput(done)), turn);
      IsDispatched(lim, b, id + 1, r, b', Stage(id + 1, tasks, turn, done))
  {
  }

  lemma {:induction false} PipelineAdvances(tasks: seq<string>, turn: TurnFn, done: seq<TaskResult>, r: TaskResult)
    requires |done| < |tasks| && Chain(tasks, turn, done)
    requires r == Stage(r.taskId, tasks, turn, done) && r.success
    ensures Chain(tasks, turn, done + [r])
    ensures SumSteps(done + [r]) == SumSteps(done) + r.stepsUsed
  {
    assert (done + [r])[..|done|] == done;
  }

  // ------------------------------------------------------------ the classes

  datatype Mode = Auto | Sequential | Concurrent | Parallel

  class Orchestrator {
    const mode: Mode
    const maxConcurrent: nat
    const lim: Limits
    var agents: seq<string>
    var consumedSteps: nat
    var dispatchedTasks: nat
    var taskSeq: nat

    constructor (mode: Mode, maxConcurrent: nat, lim: Limits)
      requires maxConcurrent >= 1
      ensures this.mode == mode && this.maxConcurrent == maxConcurrent && this.lim == lim
      ensures agents == [] && Counters() == Budget(0, 0) && taskSeq == 0
    {
      this.mode, this.maxConcurrent, this.lim := mode, maxConcurrent, lim;
      agents, consumedSteps, dispatchedTasks, taskSeq := [], 0, 0, 0;
    }

    function Counters(): Budget
      reads this
    {
      Budget(consumedSteps, dispatchedTasks)
    }

    method RunTask(id: nat, prompt: string, turn: TurnFn) returns (r: TaskResult)
      modifies this`consumedSteps, this`dispatchedTasks
      ensures r == Executed(id, turn(id, prompt))
      ensures r.taskId == id && r.errorKind == None
      ensures match turn(id, prompt)
        case Turned(content, isFinal, iterations, sessionId) =>
          r.output == content && r.success == isFinal && r.stepsUsed == iterations && r.sessionId == sessionId && r.error == None
        case Threw(message) =>
          r.output == None && !r.success && r.stepsUsed == 0 && r.sessionId == "" && r.error == Some(message)
      ensures consumedSteps == old(consumedSteps) + r.stepsUsed && dispatchedTasks == old(dispatchedTasks) + 1
    {
      match turn(id, prompt) {
        case Turned(content, isFinal, iterations, sessionId) =>
          r := TaskResult(id, content, isFinal, iterations, sessionId, None, None);
          consumedSteps := consumedSteps + r.stepsUsed;
          dispatchedTasks := dispatchedTasks + 1;
        case Threw(message) =>
          dispatchedTasks := dispatchedTasks + 1;
          r := TaskResult(id, None, false, 0, "", Some(message), None);
      }
    }

    /** `dispatch`: the budget is tested and the id taken in one segment, the turn
        is awaited, and its end moves the counters; `others` says whether other
        dispatches may run meanwhile. */
    method Dispatch(prompt: string, turn: TurnFn, others: bool) returns (r: Result<TaskResult, string>)
      modifies this`consumedSteps, this`dispatchedTasks, this`taskSeq
      ensures agents == [] ==> r.Err? && unchanged(this)
      ensures agents != [] ==>
        && r.Ok?
        && r.value == DispatchOne(lim, old(Counters()), old(taskSeq), prompt, turn).0
        && AtLeast(DispatchOne(lim, old(Counters()), old(taskSeq), prompt, turn).1, Counters())
        && taskSeq >= old(taskSeq) + 1
      ensures agents != [] && !others ==>
        && Counters() == DispatchOne(lim, old(Counters()), old(taskSeq), prompt, turn).1
        && taskSeq == old(taskSeq) + 1
    {
      if agents == [] {
        return Err("no agent registered");
      }
      taskSeq := taskSeq + 1;
      var id := taskSeq;
      if Exhausted(lim, Counters()) {
        return Ok(Denied(id));
      }
      var _ := Interfere(others);   // the turn is awaited
      var result := RunTask(id, prompt, turn);
      r := Ok(result);
    }

    /** `pipeline`: other dispatches may run at every await. */
    method Pipeline(tasks: seq<string>, turn: TurnFn, others: bool) returns (o: Option<PipelineOutcome>)
      modifies this`consumedSteps, this`dispatchedTasks, this`taskSeq
      ensures o.None? <==> agents == [] && tasks != []
      ensures o.Some? ==> PipelineShaped(tasks, turn, o.value)
      ensures o.Some? && !others ==> PipelinePaid(lim, old(Counters()), old(taskSeq), tasks, turn, o.value, Counters())
    {
      var ok, results, totalSteps, failed := Stages(tasks, turn, others);
      if !ok {
        return None;
      }
      if failed.Some? {
        StopsShaped(tasks, turn, results, failed.value);
        if !others {
          StopsPaid(lim, old(Counters()), old(taskSeq), tasks, turn, results, failed.value, Counters());
        }
        return Some(Stopped(results, totalSteps, failed.value));
      }
      EndsShaped(tasks, turn, results);
      o := Some(PipelineOutcome(results, LastOutput(results), totalSteps, true, None));
    }

    /** The loop of `pipeline`, up to the first task that is no success. */
    method Stages(tasks: seq<string>, turn: TurnFn, others: bool)
      returns (ok: bool, results: seq<TaskResult>, totalSteps: nat, failed: Option<TaskResult>)
      modifies this`consumedSteps, this`dispatchedTasks, this`taskSeq
      ensures ok <==> agents != [] || tasks == []
      ensures ok ==> Chain(tasks, turn, results) && totalSteps == SumSteps(results)
      ensures ok ==> |results| <= |tasks| && (failed.None? <==> |results| == |tasks|)
      ensures ok && failed.Some? ==> var r := failed.value;
        !r.success && (r == Denied(r.taskId) || r == Stage(r.taskId, tasks, turn, results))
      ensures ok && !others ==> NumberedFrom(results, old(taskSeq))
      ensures ok && !others ==>
        if failed.None? then Counters() == Paid(old(Counters()), results)
        else StopPaid(lim, Paid(old(Counters()), results), Stage(old(taskSeq) + 1 + |results|, tasks, turn, results), Counters())
    {
      ok, results, totalSteps, failed := true, [], 0, None;
      var previous := None;
      ghost var b0, seq0 := Counters(), taskSeq;
      for i := 0 to |tasks|
        invariant |results| == i && previous == LastOutput(results)
        invariant i > 0 ==> agents != []
        invariant Chain(tasks, turn, results) && totalSteps == SumSteps(results)
        invariant !others ==> NumberedFrom(results, seq0) && Counters() == Paid(b0, results) && taskSeq == seq0 + i
      {
        ghost var before, id := Counters(), taskSeq;
        var result := Dispatch(PromptFor(i, tasks[i], previous), turn, others);
        if result.Err? {
          ok := false;
          return;
        }
        var r := result.value;
        DispatchIsStage(lim, before, id, tasks, turn, results);
        if !r.success {
          failed := Some(r);
          return;
        }
        PipelineAdvances(tasks, turn, results, r);
        if !others { AdvancesPaid(b0, seq0, results, r); }
        results := results + [r];
        totalSteps := totalSteps + r.stepsUsed;
        previous := r.output;
        var _ := Interfere(others);   // up to the next dispatch
      }
    }

    /** Other dispatches on this orchestrator, while this one is suspended. */
    method Interfere(others: bool) returns (s: Step)
      modifies this`consumedSteps, this`dispatchedTasks, this`taskSeq
      ensures s.Other? && (!others ==> unchanged(this))
      ensures dispatchedTasks == old(dispatchedTasks) + s.dispatched
      ensures consumedSteps == old(consumedSteps) + s.consumed && taskSeq == old(taskSeq) + s.ids
    {
      s := Other(0, 0, 0);
      if others {
        var d: nat, c: nat, ids: nat := *, *, *;
        s := Other(d, c, ids);
      }
      dispatchedTasks := dispatchedTasks + s.dispatched;
      consumedSteps := consumedSteps + s.consumed;
      taskSeq := taskSeq + s.ids;
    }

    /** `dispatchMany`.  `others` says whether other dispatches may move the
        counters while this one is suspended; which worker runs next is left
        open, so the postconditions hold of every interleaving. */
    method DispatchMany(tasks: seq<string>, turn: TurnFn, others: bool)
      returns (r: Option<seq<TaskResult>>)
      requires maxConcurrent >= 1
      modifies this`consumedSteps, this`dispatchedTasks, this`taskSeq
      ensures r.None? <==> agents == [] && tasks != []
      ensures r.Some? ==> |r.value| == |tasks| && Answered(Job(lim, tasks, turn), r.value)
      ensures r.Some? && !others ==>
        && consumedSteps == old(consumedSteps) + SumSteps(r.value)
        && dispatchedTasks == old(dispatchedTasks) + ExecutedCount(r.value)
        && WithinLimit(lim, old(dispatchedTasks), dispatchedTasks, Max(1, Min(maxConcurrent, |tasks|)))
        && StepsWithin(Job(lim, tasks, turn), old(consumedSteps), consumedSteps, Max(1, Min(maxConcurrent, |tasks|)))
      ensures r.Some? && !others && (mode == Sequential || (mode == Auto && |tasks| == 1)) ==>
        && WithinLimit(lim, old(dispatchedTasks), dispatchedTasks, 1)
        && StepsWithin(Job(lim, tasks, turn), old(consumedSteps), consumedSteps, 1)
      ensures r.Some? && |tasks| > 1 && mode != Sequential ==>
        FromRun(Job(lim, tasks, turn), Min(maxConcurrent, |tasks|), old(Counters()), old(taskSeq), r.value, Counters(), others)
    {
      if |tasks| == 0 {
        NoStepsTaken(Job(lim, tasks, turn), consumedSteps, 1);
        return Some([]);
      }
      if agents == [] {
        return None;
      }
      var results;
      if mode == Sequential || (mode == Auto && |tasks| == 1) {
        results := DispatchInOrder(tasks, turn, others);
        if !others {
          MoreWorkersMoreSteps(Job(lim, tasks, turn), old(consumedSteps), consumedSteps, 1, Min(maxConcurrent, |tasks|));
        }
      } else {
        results := DispatchPool(tasks, turn, others);
      }
      r := Some(results);
    }

    /** The sequential path: one dispatch after the other, so no overshoot. */
    method DispatchInOrder(tasks: seq<string>, turn: TurnFn, others: bool) returns (results: seq<TaskResult>)
      requires agents != []
      modifies this`consumedSteps, this`dispatchedTasks, this`taskSeq
      ensures |results| == |tasks| && Answered(Job(lim, tasks, turn), results)
      ensures !others ==>
        && consumedSteps == old(consumedSteps) + SumSteps(results)
        && dispatchedTasks == old(dispatchedTasks) + ExecutedCount(results)
        && WithinLimit(lim, old(dispatchedTasks), dispatchedTasks, 1)
        && StepsWithin(Job(lim, tasks, turn), old(consumedSteps), consumedSteps, 1)
    {
      results := [];
      ghost var job := Job(lim, tasks, turn);
      for i := 0 to |tasks|
        invariant |results| == i && AnsweredSoFar(job, results, Counters(), taskSeq)
        invariant !others ==> PaidInOrder(job, old(Counters()), results, Counters())
      {
        ghost var b, id := Counters(), taskSeq;
        var _ := Interfere(others);
        AnswersOutliveInterference(job, results, b, id, Counters(), taskSeq);
        DispatchKeepsAnswers(job, results, old(Counters()), Counters(), taskSeq);
        b, id := DispatchOne(lim, Counters(), taskSeq, tasks[i], turn).1, taskSeq + 1;
        var one := Dispatch(tasks[i], turn, others);
        results := results + [one.value];
        AnswersOutliveInterference(job, results, b, id, Counters(), taskSeq);
      }
    }

    method DispatchPool(tasks: seq<string>, turn: TurnFn, others: bool) returns (results: seq<TaskResult>)
      requires maxConcurrent >= 1 && agents != [] && tasks != []
      modifies this`consumedSteps, this`dispatchedTasks, this`taskSeq
      ensures |results| == |tasks| && Answered(Job(lim, tasks, turn), results)
      ensures !others ==>
        && consumedSteps == old(consumedSteps) + SumSteps(results)
        && dispatchedTasks == old(dispatchedTasks) + ExecutedCount(results)
        && WithinLimit(lim, old(dispatchedTasks), dispatchedTasks, Min(maxConcurrent, |tasks|))
        && StepsWithin(Job(lim, tasks, turn), old(consumedSteps), consumedSteps, Min(maxConcurrent, |tasks|))
      ensures FromRun(Job(lim, tasks, turn), Min(maxConcurrent, |tasks|), old(Counters()), old(taskSeq), results, Counters(), others)
    {
      var pool := new Activation(this, tasks, turn, Min(maxConcurrent, |tasks|));
      pool.Drive(others);
      results := pool.Collect();
    }
  }

  /** `Answered`, with what the next dispatch needs to keep it. */
  ghost predicate AnsweredSoFar(job: Job, rs: seq<TaskResult>, b: Budget, taskSeq: nat) {
    && Answered(job, rs)
    && (forall k :: 0 <= k < |rs| ==> rs[k].taskId <= taskSeq && (IsDenied(rs[k]) ==> Exhausted(job.lim, b)))
  }

  lemma AnswersOutliveInterference(job: Job, rs: seq<TaskResult>, b: Budget, taskSeq: nat, b': Budget, taskSeq': nat)
    requires AnsweredSoFar(job, rs, b, taskSeq) && taskSeq <= taskSeq'
    requires AtLeast(b, b')
    ensures AnsweredSoFar(job, rs, b', taskSeq')
  {
  }

  ghost predicate PaidInOrder(job: Job, b0: Budget, rs: seq<TaskResult>, b: Budget) {
    && b == Budget(b0.consumedSteps + SumSteps(rs), b0.dispatchedTasks + ExecutedCount(rs))
    && WithinLimit(job.lim, b0.dispatchedTasks, b.dispatchedTasks, 1)
    && StepsWithin(job, b0.consumedSteps, b.consumedSteps, 1)
  }

  lemma {:induction false} DispatchKeepsPaid(job: Job, rs: seq<TaskResult>, b0: Budget, b: Budget, taskSeq: nat)
    requires |rs| < |job.tasks| && PaidInOrder(job, b0, rs, b)
    ensures var (r, b') := DispatchOne(job.lim, b, taskSeq, job.tasks[|rs|], job.turn); PaidInOrder(job, b0, rs + [r], b')
  {
    var (r, b') := DispatchOne(job.lim, b, taskSeq, job.tasks[|rs|], job.turn);
    assert (rs + [r])[..|rs|] == rs;
  }

  lemma {:induction false} DispatchKeepsAnswers(job: Job, rs: seq<TaskResult>, b0: Budget, b: Budget, taskSeq: nat)
    requires |rs| < |job.tasks| && AnsweredSoFar(job, rs, b, taskSeq)
    ensures var (r, b') := DispatchOne(job.lim, b, taskSeq, job.tasks[|rs|], job.turn);
      && AnsweredSoFar(job, rs + [r], b', taskSeq + 1)
      && (PaidInOrder(job, b0, rs, b) ==> PaidInOrder(job, b0, rs + [r], b'))
  {
    if PaidInOrder(job, b0, rs, b) { DispatchKeepsPaid(job, rs, b0, b, taskSeq); }
  }

  /** `run` is a finished run of `w` workers that leaves these results and counters. */
  ghost predicate RunGives(job: Job, w: nat, b: Budget, seq0: nat, rs: seq<TaskResult>, b': Budget, run: seq<Step>, q: Pool) {
    && Run(job, Start(job, w, b, seq0), run, q) && Finished(q)
    && AllSome(q.results) && Values(q.results) == rs && q.budget == b'
  }

  /** Some such run does, without other dispatches unless there are `others`. */
  ghost predicate FromRun(job: Job, w: nat, b: Budget, seq0: nat, rs: seq<TaskResult>, b': Budget, others: bool) {
    exists run, q :: RunGives(job, w, b, seq0, rs, b', run, q) && (others || Alone(run))
  }

  predicate AllDone(ws: seq<Phase>) {
    forall w :: 0 <= w < |ws| ==> ws[w].Done?
  }

  /** The segment a suspended worker runs when it is resumed. */
  function SegmentOf(p: Pool, w: nat): Step
    requires w < |p.workers|
  {
    match p.workers[w]
    case Running(_, _) => Settle(w)
    case Settled(_, _) => Store(w)
    case _ => Claim(w)
  }

  /** Every unfinished worker can run its segment, and each brings the end nearer. */
  lemma SegmentEnabled(job: Job, p: Pool, w: nat)
    requires Inv(job, p) && w < |p.workers| && !p.workers[w].Done?
    ensures Enabled(job, p, SegmentOf(p, w))
    ensures var q := Next(job, p, SegmentOf(p, w));
      0 <= Remaining(|job.tasks|, q.next, q.workers) < Remaining(|job.tasks|, p.next, p.workers)
  {
    assert WorkerOk(job, p, p.workers[w]);
    var q := Next(job, p, SegmentOf(p, w));
    WeightUpdate(p.workers, w, q.workers[w]);
    assert q.workers == p.workers[w := q.workers[w]];
  }

  /** The closure of one pool dispatch: the shared index, the results array and
      where each worker is suspended. */
  class Activation {
    const orchestrator: Orchestrator
    const job: Job
    const results: array<Option<TaskResult>>
    var nextIndex: nat
    var workers: seq<Phase>
    ghost const first: Pool
    ghost var claims: seq<Claimed>
    ghost var run: seq<Step>

    constructor (o: Orchestrator, tasks: seq<string>, turn: TurnFn, n: nat)
      requires n >= 1
      ensures orchestrator == o && job == Job(o.lim, tasks, turn)
      ensures Valid() && fresh(results) && run == []
      ensures first == Start(job, n, o.Counters(), o.taskSeq)
    {
      orchestrator, job := o, Job(o.lim, tasks, turn);
      results := new Option<TaskResult>[|tasks|](_ => None);
      nextIndex, claims, run := 0, [], [];
      workers := seq(n, _ => Idle);
      first := Start(Job(o.lim, tasks, turn), n, o.Counters(), o.taskSeq);
      new;
      assert results[..] == seq(|tasks|, _ => None);
      StartInv(job, n, o.Counters(), o.taskSeq);
    }

    ghost function View(): Pool
      reads this, results, orchestrator
    {
      Pool(nextIndex, workers, results[..], orchestrator.Counters(), orchestrator.taskSeq, claims)
    }

    /** The segments so far lead from the start to here. */
    ghost predicate Valid()
      reads this, results, orchestrator
    {
      && results.Length == |job.tasks| == |first.results| && job.lim == orchestrator.lim
      && |first.workers| >= 1
      && first == Start(job, |first.workers|, first.budget, first.taskSeq)
      && Inv(job, View()) && Run(job, first, run, View())
    }

    ghost method Record(m: Pool, s: Step)
      requires results.Length == |job.tasks| == |first.results| && job.lim == orchestrator.lim
      requires |first.workers| >= 1
      requires first == Start(job, |first.workers|, first.budget, first.taskSeq)
      requires Inv(job, m) && Enabled(job, m, s) && Run(job, first, run, m)
      requires View() == Next(job, m, s)
      modifies this`run
      ensures Valid() && run == old(run) + [s]
    {
      RunExtend(job, first, run, m, s);
      NextKeepsInv(job, m, s);
      run := run + [s];
    }

    method Disturb()
      requires Valid()
      modifies this`run
      modifies orchestrator`consumedSteps, orchestrator`dispatchedTasks, orchestrator`taskSeq
      ensures Valid()
    {
      ghost var before := View();
      var s := orchestrator.Interfere(true);
      Record(before, s);
    }

    /** One segment of worker `w`, up to its next await. */
    method Resume(w: nat)
      requires Valid() && w < |workers| && !workers[w].Done?
      modifies this, results
      modifies orchestrator`consumedSteps, orchestrator`dispatchedTasks, orchestrator`taskSeq
      ensures Valid() && Enabled(job, old(View()), old(SegmentOf(View(), w)))
      ensures View() == Next(job, old(View()), old(SegmentOf(View(), w)))
      ensures run == old(run) + [old(SegmentOf(View(), w))]
      ensures 0 <= Remaining(|job.tasks|, nextIndex, workers) < old(Remaining(|job.tasks|, nextIndex, workers))
    {
      ghost var before := View();
      SegmentEnabled(job, before, w);
      match workers[w] {
        case Idle => ClaimNext(w);
        case Running(_, _) => SettleTurn(w);
        case Settled(_, _) => StoreResult(w);
      }
      Record(before, SegmentOf(before, w));
    }

    /** The claim: take the next index and, within the budget, start its turn. */
    method ClaimNext(w: nat)
      requires Valid() && w < |workers| && workers[w].Idle?
      modifies this`nextIndex, this`workers, this`claims, results, orchestrator`taskSeq
      ensures View() == ClaimStep(job, old(View()), w)
    {
      var index := nextIndex;
      nextIndex := nextIndex + 1;
      if index >= |job.tasks| {
        workers := workers[w := Done];
        return;
      }
      orchestrator.taskSeq := orchestrator.taskSeq + 1;
      if Exhausted(orchestrator.lim, orchestrator.Counters()) {
        results[index] := Some(Denied(orchestrator.taskSeq));
        claims := claims + [Refused(orchestrator.taskSeq)];
      } else {
        workers := workers[w := Running(index, orchestrator.taskSeq)];
        claims := claims + [Started(orchestrator.taskSeq)];
      }
    }

    /** The turn ends and moves the counters. */
    method SettleTurn(w: nat)
      requires Valid() && w < |workers| && workers[w].Running? && Enabled(job, View(), Settle(w))
      modifies this`workers, orchestrator`consumedSteps, orchestrator`dispatchedTasks
      ensures View() == SettleStep(job, old(View()), w)
    {
      var Running(index, id) := workers[w];
      var r := orchestrator.RunTask(id, job.tasks[index], job.turn);
      workers := workers[w := Settled(index, r)];
    }

    /** The worker resumes and stores its result. */
    method StoreResult(w: nat)
      requires Valid() && w < |workers| && workers[w].Settled? && Enabled(job, View(), Store(w))
      modifies this`workers, results
      ensures View() == StoreStep(job, old(View()), w)
    {
      var Settled(index, r) := workers[w];
      results[index] := Some(r);
      workers := workers[w := Idle];
    }

    /** Any scheduler: some suspended worker is resumed until none is left. */
    method Drive(others: bool)
      requires Valid() && run == []
      modifies this, results
      modifies orchestrator`consumedSteps, orchestrator`dispatchedTasks, orchestrator`taskSeq
      ensures Valid() && AllDone(workers) && (!others ==> Alone(run))
    {
      while !AllDone(workers)
        invariant Valid()
        invariant !others ==> Alone(run)
        decreases Remaining(|job.tasks|, nextIndex, workers)
      {
        if others {
          Disturb();
        }
        var w :| 0 <= w < |workers| && !workers[w].Done?;
        Resume(w);
      }
    }

    /** The results array, once every worker has returned. */
    method Collect() returns (rs: seq<TaskResult>)
      requires Valid() && AllDone(workers)
      ensures |rs| == |job.tasks| && Answered(job, rs)
      ensures Alone(run) ==>
        && orchestrator.consumedSteps == first.budget.consumedSteps + SumSteps(rs)
        && orchestrator.dispatchedTasks == first.budget.dispatchedTasks + ExecutedCount(rs)
        && WithinLimit(job.lim, first.budget.dispatchedTasks, orchestrator.dispatchedTasks, |first.workers|)
        && StepsWithin(job, first.budget.consumedSteps, orchestrator.consumedSteps, |first.workers|)
      ensures FromRun(job, |first.workers|, first.budget, first.taskSeq, rs, orchestrator.Counters(), !Alone(run))
    {
      ghost var n := |first.workers|;
      EveryTaskExactlyOnce(job, n, first.budget, first.taskSeq, run, View());
      if Alone(run) {
        OvershootBounded(job, n, first.budget, first.taskSeq, run, View());
        CountersMatchResults(job, n, first.budget, first.taskSeq, run, View());
        FinalSteps(job, n, first.budget, first.taskSeq, run, View());
      }
      rs := Values(results[..]);
      assert RunGives(job, n, first.budget, first.taskSeq, rs, orchestrator.Counters(), run, View());
    }
  }
}

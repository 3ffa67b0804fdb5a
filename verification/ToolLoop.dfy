// The tool loop: prepare, ask the LLM, commit, drain, and execute the tool the
// commit asks for, until a final action or the step limit.  The runner, the
// LLM, the gate and the tools may answer anything.
module ToolLoop {
  import opened Common

  datatype DrainEvent = DrainEvent(kind: string, tool: Option<string>)

  datatype ToolResult = ToolResult(tool: string, success: bool, output: string)

  datatype Commit =
    | Final(content: Option<string>)
    | CallTool(tool: string, input: string, stepId: nat)
    | Retry(content: Option<string>)
    | Other(action: string)

  /** Everything the environment answers during one iteration. */
  datatype Answers = Answers(
    prepared: Result<string, string>,
    gate: Result<(), string>,
    llm: Result<string, string>,
    commit: Result<Commit, string>,
    drained: Result<seq<DrainEvent>, string>,
    executed: Result<ToolResult, string>,
    fed: Result<(), string>)

  /** Any behaviour at all: what iteration i is answered. */
  type Environment = nat -> Answers

  // ------------------------------------------------------------------ trace

  datatype Event =
    | Prepared(step: nat, prompt: string)
    | Asked(step: nat)
    | Committed(step: nat, commit: Commit)
    | Drained(step: nat, events: seq<DrainEvent>)
    | Executed(step: nat, tool: string, result: Result<ToolResult, string>)
    | Fed(step: nat, output: ToolResult)

  datatype Outcome = Outcome(steps: nat, content: Option<string>)

  datatype Stop =
    | Finished(outcome: Outcome)
    | StepsExceeded
    | Failed(reason: string)

  /** The composite ran the tool itself inside the commit. */
  predicate InBand(events: seq<DrainEvent>, tool: string) {
    exists i :: 0 <= i < |events| && events[i] == DrainEvent("tool_result", Some(tool))
  }

  function PromptOf(prompts: seq<string>, step: nat): string {
    if step < |prompts| then prompts[step]
    else if prompts != [] then prompts[|prompts| - 1]
    else ""
  }

  /** One iteration: what it shows, and how the run stops if it stops there. */
  function Iteration(prompts: seq<string>, i: nat, a: Answers): (seq<Event>, Option<Stop>) {
    var t0 := [Prepared(i, PromptOf(prompts, i))];
    if a.prepared.Err? then (t0, Some(Failed(a.prepared.error)))
    else if a.gate.Err? then (t0, Some(Failed(a.gate.error)))
    else
      var t1 := t0 + [Asked(i)];
      if a.llm.Err? then (t1, Some(Failed(a.llm.error)))
      else if a.commit.Err? then (t1, Some(Failed(a.commit.error)))
      else
        var t2 := t1 + [Committed(i, a.commit.value)];
        match a.commit.value
        case Final(content) => (t2, Some(Finished(Outcome(i + 1, content))))
        case Retry(content) => (t2, Some(Failed("retry")))
        case Other(action) => (t2, Some(Failed("unknown action")))
        case CallTool(tool, input, stepId) =>
          if a.drained.Err? then (t2, Some(Failed(a.drained.error)))
          else
            var t3 := t2 + [Drained(i, a.drained.value)];
            if InBand(a.drained.value, tool) then (t3, None)
            else
              var t4 := t3 + [Executed(i, tool, a.executed)];
              if a.executed.Err? then (t4, Some(Failed(a.executed.error)))
              else
                var t5 := t4 + [Fed(i, a.executed.value)];
                if a.fed.Err? then (t5, Some(Failed(a.fed.error))) else (t5, None)
  }

  function LoopFrom(prompts: seq<string>, env: Environment, max: nat, step: nat): (seq<Event>, Stop)
    requires step <= max
    decreases max - step
  {
    if step == max then ([], StepsExceeded)
    else
      var (t, stop) := Iteration(prompts, step, env(step));
      match stop
      case Some(s) => (t, s)
      case None =>
        var (rest, s) := LoopFrom(prompts, env, max, step + 1);
        (t + rest, s)
  }

  // ------------------------------------------------------------- what holds

  function LlmCalls(t: seq<Event>): nat {
    if t == [] then 0 else (if t[0].Asked? then 1 else 0) + LlmCalls(t[1..])
  }

  lemma {:induction false} LlmCallsAppend(a: seq<Event>, b: seq<Event>)
    ensures LlmCalls(a + b) == LlmCalls(a) + LlmCalls(b)
  {
    if a == [] {
      assert a + b == b;
    } else {
      assert (a + b)[1..] == a[1..] + b;
      LlmCallsAppend(a[1..], b);
    }
  }

  /** What the events around position `j` must be.  An execution follows a drain
      without a result for that tool, which follows the commit that asked for
      it, and a success is fed back at once; feeding follows a success only; a
      drained call is executed right then unless the composite answered it; and
      the next turn is prepared only when the last one has been answered. */
  predicate LawfulAt(t: seq<Event>, j: nat)
    requires j < |t|
  {
    match t[j]
    case Asked(i) => j >= 1 && t[j - 1].Prepared? && t[j - 1].step == i
    case Committed(i, c) => j >= 1 && t[j - 1] == Asked(i)
    case Prepared(i, _) =>
      j >= 1 ==> t[j - 1].step + 1 == i && (t[j - 1].Fed? || t[j - 1].Drained?)
    case Drained(i, events) =>
      && j >= 1 && t[j - 1].Committed? && t[j - 1].commit.CallTool? && t[j - 1].step == i
      && (if DrainEvent("tool_result", Some(t[j - 1].commit.tool)) in events then j + 1 < |t| ==> t[j + 1].Prepared?
          else j + 1 < |t| && t[j + 1].Executed? && t[j + 1].tool == t[j - 1].commit.tool)
    case Executed(i, tool, result) =>
      && j >= 2 && t[j - 1].Drained? && t[j - 1].step == i
      && DrainEvent("tool_result", Some(tool)) !in t[j - 1].events
      && t[j - 2].Committed? && t[j - 2].commit.CallTool? && t[j - 2].commit.tool == tool
      && (result.Ok? ==> j + 1 < |t| && t[j + 1] == Fed(i, result.value))
    case Fed(i, output) =>
      j >= 1 && t[j - 1].Executed? && t[j - 1].result == Ok(output) && t[j - 1].step == i
  }

  ghost predicate Lawful(t: seq<Event>) {
    forall j :: 0 <= j < |t| ==> LawfulAt(t, j)
  }

  lemma IterationIsLawful(prompts: seq<string>, i: nat, a: Answers)
    ensures var (t, stop) := Iteration(prompts, i, a);
      && |t| >= 1 && t[0] == Prepared(i, PromptOf(prompts, i)) && t[|t| - 1].step == i
      && Lawful(t)
      && (stop.None? ==> t[|t| - 1].Fed? || t[|t| - 1].Drained?)
  {
    var (t, stop) := Iteration(prompts, i, a);
    forall j | 0 <= j < |t|
      ensures LawfulAt(t, j)
    {
    }
  }

  lemma JoinLawful(a: seq<Event>, b: seq<Event>, i: nat)
    requires |a| >= 1 && Lawful(a) && Lawful(b)
    requires (a[|a| - 1].Fed? || a[|a| - 1].Drained?) && a[|a| - 1].step == i
    requires b != [] ==> b[0].Prepared? && b[0].step == i + 1
    ensures Lawful(a + b)
  {
    var t := a + b;
    forall j | 0 <= j < |t|
      ensures LawfulAt(t, j)
    {
      if j < |a| {
        assert LawfulAt(a, j);
        assert forall k :: 0 <= k < |a| ==> t[k] == a[k];
        if j + 1 == |a| && b != [] { assert t[j + 1] == b[0]; }
      } else {
        assert LawfulAt(b, j - |a|);
        assert forall k :: |a| <= k < |t| ==> t[k] == b[k - |a|];
        if j == |a| { assert t[j - 1] == a[|a| - 1]; }
      }
    }
  }

  lemma IterationAsksOnce(prompts: seq<string>, i: nat, a: Answers)
    ensures var (t, stop) := Iteration(prompts, i, a);
      && LlmCalls(t) <= 1
      && (stop.None? || stop.value.Finished? ==> LlmCalls(t) == 1)
      && (stop.Some? && stop.value.Finished? ==>
            stop.value.outcome.steps == i + 1
            && t[|t| - 1].Committed? && t[|t| - 1].commit == Final(stop.value.outcome.content))
      && stop != Some(StepsExceeded)
  {
    var t := Iteration(prompts, i, a).0;
    if |t| >= 2 { LlmCallsAppend(t[..1], t[1..2]); assert t[..1] + t[1..2] == t[..2]; }
    if |t| >= 3 { LlmCallsNone(t[2..]); LlmCallsAppend(t[..2], t[2..]); assert t[..2] + t[2..] == t; }
    assert |t| == 1 ==> t[1..] == [];
    assert |t| == 2 ==> t[..2] == t;
    assert |t| >= 1 ==> t[..1][1..] == [];
    assert |t| >= 2 ==> t[1..2][1..] == [];
  }

  lemma {:induction false} LlmCallsNone(t: seq<Event>)
    requires forall j :: 0 <= j < |t| ==> !t[j].Asked?
    ensures LlmCalls(t) == 0
  {
    if t != [] {
      assert !t[0].Asked?;
      LlmCallsNone(t[1..]);
    }
  }

  lemma {:induction false} LoopIsLawful(prompts: seq<string>, env: Environment, max: nat, step: nat)
    requires step <= max
    ensures var (t, stop) := LoopFrom(prompts, env, max, step);
      && Lawful(t) && (t != [] ==> t[0].Prepared? && t[0].step == step)
    decreases max - step
  {
    if step < max {
      var (t, stop) := Iteration(prompts, step, env(step));
      IterationIsLawful(prompts, step, env(step));
      if stop.None? {
        LoopIsLawful(prompts, env, max, step + 1);
        JoinLawful(t, LoopFrom(prompts, env, max, step + 1).0, step);
      }
    }
  }

  lemma {:induction false} LoopCountsCalls(prompts: seq<string>, env: Environment, max: nat, step: nat)
    requires step <= max
    ensures var (t, stop) := LoopFrom(prompts, env, max, step);
      && LlmCalls(t) <= max - step
      && (stop.Finished? ==>
            && stop.outcome.steps == step + LlmCalls(t)
            && t != [] && t[|t| - 1].Committed? && t[|t| - 1].commit == Final(stop.outcome.content))
      && (stop == StepsExceeded ==> LlmCalls(t) == max - step)
    decreases max - step
  {
    if step < max {
      var (t, stop) := Iteration(prompts, step, env(step));
      IterationAsksOnce(prompts, step, env(step));
      if stop.None? {
        LoopCountsCalls(prompts, env, max, step + 1);
        LlmCallsAppend(t, LoopFrom(prompts, env, max, step + 1).0);
      }
    }
  }

  // -------------------------------------------- the trace and the environment

  /** The event says what the environment answered in its step, and follows from
      answers that were no errors: above all, a model is asked only if the gate
      let the call through. */
  predicate Honest(prompts: seq<string>, env: Environment, e: Event) {
    match e
    case Prepared(i, prompt) =>
      prompt == (if prompts == [] then "" else if i < |prompts| then prompts[i] else prompts[|prompts| - 1])
    case Asked(i) => env(i).prepared.Ok? && env(i).gate.Ok?
    case Committed(i, c) => env(i).llm.Ok? && env(i).commit == Ok(c)
    case Drained(i, events) => env(i).drained == Ok(events)
    case Executed(i, _, result) => env(i).executed == result
    case Fed(i, output) => env(i).executed == Ok(output)
  }

  /** The run failed with `e` after the last of these events: what was to come
      next in that step is the error, or the commit asked for no known action. */
  predicate FailedAfter(last: Event, a: Answers, e: string) {
    match last
    case Prepared(_, _) => a.prepared == Err(e) || (a.prepared.Ok? && a.gate == Err(e))
    case Asked(_) => a.llm == Err(e) || (a.llm.Ok? && a.commit == Err(e))
    case Committed(_, Retry(_)) => true
    case Committed(_, Other(_)) => true
    case Committed(_, CallTool(_, _, _)) => a.drained == Err(e)
    case Executed(_, _, result) => result == Err(e)
    case Fed(_, _) => a.fed == Err(e)
    case _ => false
  }

  /** How a run with this trace may stop. */
  predicate StopsWith(t: seq<Event>, env: Environment, stop: Stop) {
    match stop
    case Failed(e) => t != [] && FailedAfter(t[|t| - 1], env(t[|t| - 1].step), e)
    case Finished(o) => t != [] && t[|t| - 1].Committed? && t[|t| - 1].commit == Final(o.content) && o.steps == t[|t| - 1].step + 1
    case StepsExceeded => t != [] ==> GoesOn(t[|t| - 1], env)
  }

  /** After such an event the next turn may be prepared. */
  predicate GoesOn(e: Event, env: Environment) {
    e.Drained? || (e.Fed? && env(e.step).fed.Ok?)
  }

  /** Every event is honest, a turn is only prepared after one that goes on, and
      the run stops for the reason it gives. */
  ghost predicate Truthful(prompts: seq<string>, env: Environment, t: seq<Event>, stop: Stop) {
    && (forall j :: 0 <= j < |t| ==> Honest(prompts, env, t[j]))
    && (forall j :: 0 < j < |t| && t[j].Prepared? ==> GoesOn(t[j - 1], env))
    && StopsWith(t, env, stop)
  }

  lemma IterationIsTruthful(prompts: seq<string>, env: Environment, i: nat)
    ensures var (t, stop) := Iteration(prompts, i, env(i));
      && t != [] && (forall j :: 0 <= j < |t| ==> Honest(prompts, env, t[j]) && t[j].step == i)
      && (forall j :: 0 < j < |t| ==> !t[j].Prepared?)
      && (if stop.Some? then StopsWith(t, env, stop.value) else GoesOn(t[|t| - 1], env))
  {
  }

  lemma {:induction false} LoopIsTruthful(prompts: seq<string>, env: Environment, max: nat, step: nat)
    requires step <= max
    ensures var (t, stop) := LoopFrom(prompts, env, max, step); Truthful(prompts, env, t, stop)
    decreases max - step
  {
    if step < max {
      IterationIsTruthful(prompts, env, step);
      var (t, stop) := Iteration(prompts, step, env(step));
      if stop.None? {
        LoopIsTruthful(prompts, env, max, step + 1);
        var (rest, s) := LoopFrom(prompts, env, max, step + 1);
        JoinTruthful(prompts, env, t, rest, s);
      }
    }
  }

  lemma JoinTruthful(prompts: seq<string>, env: Environment, t: seq<Event>, rest: seq<Event>, stop: Stop)
    requires t != [] && (forall j :: 0 <= j < |t| ==> Honest(prompts, env, t[j]))
    requires (forall j :: 0 < j < |t| ==> !t[j].Prepared?) && GoesOn(t[|t| - 1], env)
    requires Truthful(prompts, env, rest, stop)
    ensures Truthful(prompts, env, t + rest, stop)
  {
    var all := t + rest;
    forall j | 0 < j < |all| && all[j].Prepared? ensures GoesOn(all[j - 1], env) {
      if j > |t| { assert all[j] == rest[j - |t|] && all[j - 1] == rest[j - |t| - 1]; }
    }
    assert rest != [] ==> all[|all| - 1] == rest[|rest| - 1];
  }

  // ---------------------------------------------------------------- the loop

  /** The host registry the Python loop installs its hook provider in. */
  class Host {
    var provider: Option<int>
    constructor () ensures provider == None { provider := None; }
  }

  /** `run_tool_loop`.  For every environment: at most max_steps LLM calls, a
      final outcome reports exactly the calls made, the host executes exactly
      the calls the composite left open and feeds each success back before the
      next turn, and the previous hook provider is back on every exit. */
  method RunToolLoop(host: Host, hooks: Option<int>, prompts: seq<string>, max: nat, env: Environment)
    returns (trace: seq<Event>, stop: Stop)
    modifies host
    ensures (trace, stop) == LoopFrom(prompts, env, max, 0)
    ensures LlmCalls(trace) <= max && Lawful(trace) && Truthful(prompts, env, trace, stop)
    ensures stop == StepsExceeded ==> LlmCalls(trace) == max
    ensures stop.Finished? ==> stop.outcome.steps == LlmCalls(trace)
    ensures hooks.Some? ==> host.provider == old(host.provider)
  {
    var previous := host.provider;
    if hooks.Some? {
      host.provider := hooks;
    }
    trace, stop := Iterate(host, prompts, max, env);
    if hooks.Some? {
      host.provider := previous;
    }
    LoopIsLawful(prompts, env, max, 0);
    LoopCountsCalls(prompts, env, max, 0);
    LoopIsTruthful(prompts, env, max, 0);
  }

  /** The loop itself; what it calls may reinstall providers as it likes. */
  method Iterate(host: Host, prompts: seq<string>, max: nat, env: Environment)
    returns (trace: seq<Event>, stop: Stop)
    modifies host
    ensures (trace, stop) == LoopFrom(prompts, env, max, 0)
  {
    trace := [];
    var step := 0;
    assert [] + LoopFrom(prompts, env, max, 0).0 == LoopFrom(prompts, env, max, 0).0;
    while step < max
      invariant 0 <= step <= max
      invariant LoopFrom(prompts, env, max, 0).0 == trace + LoopFrom(prompts, env, max, step).0
      invariant LoopFrom(prompts, env, max, 0).1 == LoopFrom(prompts, env, max, step).1
    {
      host.provider := *;
      var events, stopped := OneIteration(prompts, step, env(step));
      ghost var rest := if stopped.None? then LoopFrom(prompts, env, max, step + 1).0 else [];
      Reassociate(trace, events, rest);
      trace := trace + events;
      if stopped.Some? {
        assert events + rest == events && trace + rest == trace;
        return trace, stopped.value;
      }
      step := step + 1;
    }
    assert trace + [] == trace;
    return trace, StepsExceeded;
  }

  lemma Reassociate(a: seq<Event>, b: seq<Event>, c: seq<Event>)
    ensures a + (b + c) == a + b + c
  {
  }

  method OneIteration(prompts: seq<string>, step: nat, a: Answers) returns (events: seq<Event>, stop: Option<Stop>)
    ensures (events, stop) == Iteration(prompts, step, a)
  {
    events := [Prepared(step, PromptOf(prompts, step))];
    if a.prepared.Err? { return events, Some(Failed(a.prepared.error)); }
    if a.gate.Err? { return events, Some(Failed(a.gate.error)); }
    events := events + [Asked(step)];
    if a.llm.Err? { return events, Some(Failed(a.llm.error)); }
    if a.commit.Err? { return events, Some(Failed(a.commit.error)); }
    events := events + [Committed(step, a.commit.value)];
    match a.commit.value {
      case Final(content) => return events, Some(Finished(Outcome(step + 1, content)));
      case Retry(_) => return events, Some(Failed("retry"));
      case Other(_) => return events, Some(Failed("unknown action"));
      case CallTool(tool, _, _) =>
        if a.drained.Err? { return events, Some(Failed(a.drained.error)); }
        events := events + [Drained(step, a.drained.value)];
        if !InBand(a.drained.value, tool) {
          events := events + [Executed(step, tool, a.executed)];
          if a.executed.Err? { return events, Some(Failed(a.executed.error)); }
          events := events + [Fed(step, a.executed.value)];
          if a.fed.Err? { return events, Some(Failed(a.fed.error)); }
        }
        return events, None;
    }
  }
}

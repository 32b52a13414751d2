/**
 * `Step` and `Pipeline`: a pipeline threads one state dictionary through its
 * steps; each step hands its runner a projection of the state, merges what
 * the runner returns back in, and either records or re-raises a failure.
 * Every state before and after a step is dumped to a numbered trace file.
 */
module Pipelines {
  import opened Wrappers
  import opened Values
  import opened PyText
  import opened Ollama
  import opened Agents
  import opened MockAgents

  /** What a step runs: a model-backed agent or the echo example's mock; both have a name, an output key and `run`. */
  datatype Runner = Llm(agent: Agent) | Mock(mock: MockAgent)
  {
    function Name(): string
    {
      match this
      case Llm(a) => a.name
      case Mock(m) => m.name
    }

    function OutputKey(): string
    {
      match this
      case Llm(a) => a.outputKey
      case Mock(m) => m.outputKey
    }
  }

  /** `runner.run(inputs)`, with what the model server has received by its end. */
  function RunnerRun(runner: Runner, inputs: State, rt: Runtime,
                     reply: (nat, Request) -> Transport, sent: seq<Request>): Run
  {
    match runner
    case Llm(agent) => AgentRun(agent, inputs, rt, reply, sent)
    case Mock(m) => Run(MockRun(m, inputs), sent)
  }

  /** Calls the runner; only a model-backed agent talks to the server. */
  method CallRunner(runner: Runner, inputs: State, rt: Runtime, backend: Backend) returns (r: Outcome)
    modifies backend
    ensures Run(r, backend.sent) == RunnerRun(runner, inputs, rt, backend.reply, old(backend.sent))
  {
    match runner {
      case Llm(agent) =>
        r := RunAgent(agent, inputs, rt, backend);
      case Mock(m) =>
        r := MockRun(m, inputs);
    }
  }

  /** Whatever a runner returns is a dictionary holding its output key alone. */
  lemma RunnerShape(runner: Runner, inputs: State, rt: Runtime,
                    reply: (nat, Request) -> Transport, sent: seq<Request>)
    ensures var r := RunnerRun(runner, inputs, rt, reply, sent);
            r.outcome.Returned? ==> r.outcome.out.Keys == {runner.OutputKey()}
  {
    match runner {
      case Llm(agent) => AgentRunShape(agent, inputs, rt, reply, sent);
      case Mock(m) => MockShape(m, inputs);
    }
  }

  /** A step: a runner, the state keys it takes (all of them when empty) and its error policy. */
  datatype Step = Step(runner: Runner, takes: seq<string>, onError: string)

  /** `Step(...)` with the constructor's defaults: a missing `takes` is the empty list, the policy is "continue". */
  function NewStep(runner: Runner, takes: Option<seq<string>> := None, onError: string := "continue"): (s: Step)
    ensures s.runner == runner && s.onError == onError
    ensures s.takes == if takes.Some? then takes.value else []
  {
    Step(runner, if takes.Some? then takes.value else [], onError)
  }

  /** What a step hands its runner: the whole state, or exactly the keys it takes, `None` for those the state lacks. */
  function StepInput(state: State, takes: seq<string>): (inputs: State)
    ensures takes == [] ==> inputs == state
    ensures takes != [] ==> inputs.Keys == set k | k in takes
    ensures takes != [] ==> forall k :: k in takes ==> inputs[k] == Get(state, k, Null)
  {
    if takes == [] then state else map k | k in takes :: Get(state, k, Null)
  }

  /** The value recorded under a step's output key when its runner raised and the step goes on. */
  function ExceptionRecord(message: string): Json
  {
    Obj(map["error" := Str("exception"), "message" := Str(message)])
  }

  /** `Step.__call__`: the new state, or the runner's error when the step's policy is "stop". */
  function StepApply(step: Step, state: State, rt: Runtime,
                     reply: (nat, Request) -> Transport, sent: seq<Request>): Run
  {
    var r := RunnerRun(step.runner, StepInput(state, step.takes), rt, reply, sent);
    match r.outcome
    case Returned(out) => Run(Returned(state + out), r.sent)
    case Raised(message) =>
      if step.onError == "stop" then Run(Raised(message), r.sent)
      else Run(Returned(state + map[step.runner.OutputKey() := ExceptionRecord(message)]), r.sent)
  }

  method CallStep(step: Step, state: State, rt: Runtime, backend: Backend) returns (r: Outcome)
    modifies backend
    ensures Run(r, backend.sent) == StepApply(step, state, rt, backend.reply, old(backend.sent))
  {
    var subset := StepInput(state, step.takes);
    var out := CallRunner(step.runner, subset, rt, backend);
    if out.Raised? {
      if step.onError == "stop" {
        return out;
      }
      out := Returned(map[step.runner.OutputKey() := ExceptionRecord(out.message)]);
    }
    var updated := state + out.out;
    return Returned(updated);
  }

  /**
   * A step that completes keeps every key of the state, adds its output key,
   * and changes nothing but the value under that key.
   */
  lemma StepKeys(step: Step, state: State, rt: Runtime,
                 reply: (nat, Request) -> Transport, sent: seq<Request>)
    ensures var r := StepApply(step, state, rt, reply, sent);
            r.outcome.Returned? ==>
              && r.outcome.out.Keys == state.Keys + {step.runner.OutputKey()}
              && forall k :: k in state && k != step.runner.OutputKey() ==> r.outcome.out[k] == state[k]
  {
    RunnerShape(step.runner, StepInput(state, step.takes), rt, reply, sent);
  }

  /**
   * The error policy: a step raises exactly when its runner raises and its
   * policy is "stop"; under any other policy the error is recorded under the
   * output key. A runner's result is merged over the state, and the step
   * sends exactly what its runner sends.
   */
  lemma StepErrorPolicy(step: Step, state: State, rt: Runtime,
                        reply: (nat, Request) -> Transport, sent: seq<Request>)
    ensures var inner := RunnerRun(step.runner, StepInput(state, step.takes), rt, reply, sent);
            var r := StepApply(step, state, rt, reply, sent);
            && r.sent == inner.sent
            && (r.outcome.Raised? <==> inner.outcome.Raised? && step.onError == "stop")
            && (r.outcome.Raised? ==> r.outcome == inner.outcome)
            && (inner.outcome.Raised? && step.onError != "stop" ==>
                  r.outcome.Returned? && step.runner.OutputKey() in r.outcome.out
                  && r.outcome.out[step.runner.OutputKey()] == ExceptionRecord(inner.outcome.message))
            && (inner.outcome.Returned? ==>
                  r.outcome.Returned? && forall k :: k in inner.outcome.out ==> r.outcome.out[k] == inner.outcome.out[k])
  {
  }

  /** The steps a pipeline holds: its constructor refuses an empty list, so there is always at least one. */
  type Steps = s: seq<Step> | s != [] witness [Step(Mock(MockAgent("", "")), [], "continue")]

  datatype Pipeline = Pipeline(steps: Steps)

  /** `Pipeline(steps)`: refused when there are no steps. */
  function NewPipeline(steps: seq<Step>): (r: Result<Pipeline, string>)
    ensures r.Ok? <==> steps != []
    ensures r.Ok? ==> r.value.steps == steps
    ensures r.Err? ==> r.error == "Pipeline needs steps"
  {
    if steps == [] then Err("Pipeline needs steps") else Ok(Pipeline(steps))
  }

  /** One trace file: its number, the name it was dumped under and the state it holds. */
  datatype Snapshot = Snapshot(n: nat, name: string, payload: Json)
  {
    /** The file's name in the run directory. */
    function File(): string
    {
      FileName(n, name)
    }
  }

  /** `f"{n:02d}_{name}.json"`. */
  function FileName(n: nat, name: string): string
  {
    Pad2(n) + "_" + name + ".json"
  }

  /** The sequence number a trace file name starts with. */
  function SeqNo(file: string): nat
  {
    ParseDecimal(DigitPrefix(file))
  }

  /** The number is read back from the file name, so files of different numbers never clash. */
  lemma SeqNoOfFileName(n: nat, name: string)
    ensures SeqNo(FileName(n, name)) == n
  {
    assert FileName(n, name) == Pad2(n) + ("_" + name + ".json");
    Pad2Digits(n);
    DigitPrefixOf(Pad2(n), "_" + name + ".json");
    Pad2RoundTrip(n);
  }

  lemma FileNamesDistinct(n: nat, m: nat, a: string, b: string)
    requires n != m
    ensures FileName(n, a) != FileName(m, b)
  {
    SeqNoOfFileName(n, a);
    SeqNoOfFileName(m, b);
  }

  /**
   * The run's trace: the counter of dumps made and the files written. The run
   * directory (named by the start time) is not modelled.
   */
  class Trace {
    var i: nat
    var written: seq<Snapshot>

    ghost predicate Valid()
      reads this
    {
      i == |written|
    }

    constructor ()
      ensures Valid() && written == []
    {
      i := 0;
      written := [];
    }

    /** `dump`: the next number, and a file of that number holding the payload. */
    method Dump(name: string, payload: State)
      requires Valid()
      modifies this
      ensures Valid()
      ensures written == old(written) + [Snapshot(old(i) + 1, name, Obj(payload))]
    {
      i := i + 1;
      written := written + [Snapshot(i, name, Obj(payload))];
    }
  }

  /** How a pipeline run ends, what the server received and which trace files were written. */
  datatype Traced = Traced(outcome: Outcome, sent: seq<Request>, dumps: seq<Snapshot>)

  /** How one step is applied to a state, given what the server has received so far. */
  type StepFn = (Step, State, seq<Request>) -> Run

  /** `Step.__call__` with the collaborators fixed. */
  function Applier(rt: Runtime, reply: (nat, Request) -> Transport): StepFn
  {
    (step, state, sent) => StepApply(step, state, rt, reply, sent)
  }

  /** The remaining `steps`, each applied by `apply`, run on state `s` after `dumps` have been written. */
  function RunSteps(steps: seq<Step>, s: State, apply: StepFn, sent: seq<Request>, dumps: seq<Snapshot>): Traced
    decreases |steps|
  {
    if steps == [] then Traced(Returned(s), sent, dumps)
    else
      var name := steps[0].runner.Name();
      var before := dumps + [Snapshot(|dumps| + 1, name + "_in", Obj(s))];
      var r := apply(steps[0], s, sent);
      match r.outcome
      case Raised(message) => Traced(Raised(message), r.sent, before)
      case Returned(next) =>
        RunSteps(steps[1..], next, apply, r.sent, before + [Snapshot(|before| + 1, name + "_out", Obj(next))])
  }

  /** `dict(initial or {})`. */
  function InitialState(initial: Option<State>): State
  {
    if initial.Some? then initial.value else map[]
  }

  /** One turn of `Pipeline.run`: dump the state, apply the step, and dump the new state when there is one. */
  method TracedStep(st: Step, s: State, rt: Runtime, backend: Backend, trace: Trace) returns (out: Outcome)
    requires trace.Valid()
    modifies backend, trace
    ensures trace.Valid()
    ensures Run(out, backend.sent) == StepApply(st, s, rt, backend.reply, old(backend.sent))
    ensures var before := old(trace.written) + [Snapshot(|old(trace.written)| + 1, st.runner.Name() + "_in", Obj(s))];
            trace.written == if out.Raised? then before
                             else before + [Snapshot(|before| + 1, st.runner.Name() + "_out", Obj(out.out))]
  {
    trace.Dump(st.runner.Name() + "_in", s);
    out := CallStep(st, s, rt, backend);
    if out.Returned? {
      trace.Dump(st.runner.Name() + "_out", out.out);
    }
  }

  /** One turn of the loop: the "_in" file, the step, and either the end of the run or the "_out" file and the rest. */
  lemma RunStepsStep(steps: seq<Step>, s: State, apply: StepFn, sent: seq<Request>, dumps: seq<Snapshot>)
    requires steps != []
    ensures var before := dumps + [Snapshot(|dumps| + 1, steps[0].runner.Name() + "_in", Obj(s))];
            var r := apply(steps[0], s, sent);
            RunSteps(steps, s, apply, sent, dumps)
            == if r.outcome.Raised? then Traced(r.outcome, r.sent, before)
               else RunSteps(steps[1..], r.outcome.out, apply, r.sent,
                             before + [Snapshot(|before| + 1, steps[0].runner.Name() + "_out", Obj(r.outcome.out))])
  {
  }

  /** `Pipeline.run`, as a function of the initial state, the collaborators and what the server received before. */
  function PipelineRun(p: Pipeline, initial: Option<State>, rt: Runtime,
                       reply: (nat, Request) -> Transport, sent: seq<Request>): Traced
  {
    RunSteps(p.steps, InitialState(initial), Applier(rt, reply), sent, [])
  }

  method RunPipeline(p: Pipeline, initial: Option<State>, rt: Runtime, backend: Backend)
    returns (r: Outcome, trace: Trace)
    modifies backend
    ensures fresh(trace) && trace.Valid()
    ensures Traced(r, backend.sent, trace.written) == PipelineRun(p, initial, rt, backend.reply, old(backend.sent))
  {
    var s := if initial.Some? then initial.value else map[];
    trace := new Trace();
    r := RunStepsLoop(p.steps, s, Applier(rt, backend.reply), rt, backend, trace);
  }

  /** The loop of `Pipeline.run` over `steps`, each applied as `apply` says. */
  method RunStepsLoop(steps: seq<Step>, s0: State, ghost apply: StepFn, rt: Runtime, backend: Backend, trace: Trace)
    returns (r: Outcome)
    requires trace.Valid()
    requires forall st, s, sent {:trigger StepApply(st, s, rt, backend.reply, sent)} ::
               apply(st, s, sent) == StepApply(st, s, rt, backend.reply, sent)
    modifies backend, trace
    ensures trace.Valid()
    ensures Traced(r, backend.sent, trace.written) == RunSteps(steps, s0, apply, old(backend.sent), old(trace.written))
  {
    var s := s0;
    var k := 0;
    while k < |steps|
      invariant 0 <= k <= |steps|
      invariant trace.Valid()
      invariant RunSteps(steps[k..], s, apply, backend.sent, trace.written)
                == RunSteps(steps, s0, apply, old(backend.sent), old(trace.written))
    {
      var st := steps[k];
      RunStepsStep(steps[k..], s, apply, backend.sent, trace.written);
      assert steps[k..][0] == st && steps[k..][1..] == steps[k + 1..];
      var out := TracedStep(st, s, rt, backend, trace);
      if out.Raised? {
        return out;
      }
      s := out.out;
      k := k + 1;
    }
    r := Returned(s);
  }

  // ---------------------------------------------------------------------------
  // Properties of a pipeline run
  // ---------------------------------------------------------------------------

  /** Only a step whose policy is "stop" raises. */
  ghost predicate RaisesOnlyAtStop(apply: StepFn)
  {
    forall step, state, sent :: apply(step, state, sent).outcome.Raised? ==> step.onError == "stop"
  }

  /** A completed step keeps the state's keys, adds its output key and changes no other value. */
  ghost predicate MergesOutput(apply: StepFn)
  {
    forall step, state, sent :: apply(step, state, sent).outcome.Returned? ==>
      && apply(step, state, sent).outcome.out.Keys == state.Keys + {step.runner.OutputKey()}
      && forall k :: k in state && k != step.runner.OutputKey() ==> apply(step, state, sent).outcome.out[k] == state[k]
  }

  /** A step run by a mock sends nothing to the server. */
  ghost predicate MocksQuiet(apply: StepFn)
  {
    forall step: Step, state, sent :: step.runner.Mock? ==> apply(step, state, sent).sent == sent
  }

  lemma ApplierSteps(rt: Runtime, reply: (nat, Request) -> Transport)
    ensures RaisesOnlyAtStop(Applier(rt, reply))
    ensures MergesOutput(Applier(rt, reply))
    ensures MocksQuiet(Applier(rt, reply))
  {
    forall step, state, sent
      ensures Applier(rt, reply)(step, state, sent).outcome.Raised? ==> step.onError == "stop"
      ensures Applier(rt, reply)(step, state, sent).outcome.Returned? ==>
                && Applier(rt, reply)(step, state, sent).outcome.out.Keys == state.Keys + {step.runner.OutputKey()}
                && forall k :: k in state && k != step.runner.OutputKey() ==>
                     Applier(rt, reply)(step, state, sent).outcome.out[k] == state[k]
    {
      StepErrorPolicy(step, state, rt, reply, sent);
      StepKeys(step, state, rt, reply, sent);
    }
  }


  /** Every trace file is numbered with its position in the trace, counting from 1. */
  ghost predicate Numbered(dumps: seq<Snapshot>)
  {
    forall j :: 0 <= j < |dumps| ==> dumps[j].n == j + 1
  }

  /** The output keys of `steps`. */
  function OutputKeys(steps: seq<Step>): (keys: set<string>)
    ensures forall j :: 0 <= j < |steps| ==> steps[j].runner.OutputKey() in keys
    ensures forall k :: k in keys ==> exists j :: 0 <= j < |steps| && steps[j].runner.OutputKey() == k
  {
    set j | 0 <= j < |steps| :: steps[j].runner.OutputKey()
  }

  /** A run only appends to the trace files already written. */
  lemma {:induction false} RunStepsAppends(steps: seq<Step>, s: State, apply: StepFn,
                                           sent: seq<Request>, dumps: seq<Snapshot>)
    ensures var r := RunSteps(steps, s, apply, sent, dumps);
            |dumps| < |r.dumps| || (steps == [] && r.dumps == dumps)
    ensures var r := RunSteps(steps, s, apply, sent, dumps);
            r.dumps[..|dumps|] == dumps
    decreases |steps|
  {
    if steps != [] {
      var name := steps[0].runner.Name();
      var before := dumps + [Snapshot(|dumps| + 1, name + "_in", Obj(s))];
      var r := apply(steps[0], s, sent);
      if r.outcome.Returned? {
        var after := before + [Snapshot(|before| + 1, name + "_out", Obj(r.outcome.out))];
        RunStepsAppends(steps[1..], r.outcome.out, apply, r.sent, after);
        var rest := RunSteps(steps[1..], r.outcome.out, apply, r.sent, after);
        assert rest.dumps[..|after|][..|dumps|] == dumps;
      } else {
        assert before[..|dumps|] == dumps;
      }
    }
  }

  /** Every file a run writes carries its position in the trace. */
  lemma {:induction false} RunStepsNumbered(steps: seq<Step>, s: State, apply: StepFn,
                                            sent: seq<Request>, dumps: seq<Snapshot>)
    requires Numbered(dumps)
    ensures Numbered(RunSteps(steps, s, apply, sent, dumps).dumps)
    decreases |steps|
  {
    if steps != [] {
      var name := steps[0].runner.Name();
      var before := dumps + [Snapshot(|dumps| + 1, name + "_in", Obj(s))];
      assert Numbered(before);
      var r := apply(steps[0], s, sent);
      if r.outcome.Returned? {
        var after := before + [Snapshot(|before| + 1, name + "_out", Obj(r.outcome.out))];
        assert Numbered(after);
        RunStepsNumbered(steps[1..], r.outcome.out, apply, r.sent, after);
      }
    }
  }

  /**
   * A run that completes writes two files per step, an "_in" then an "_out"
   * file, numbered on from the files already written.
   */
  lemma {:induction false} RunStepsFiles(steps: seq<Step>, s: State, apply: StepFn,
                                         sent: seq<Request>, dumps: seq<Snapshot>)
    ensures var r := RunSteps(steps, s, apply, sent, dumps);
            r.outcome.Returned? ==>
              && |r.dumps| == |dumps| + 2 * |steps|
              && forall j :: 0 <= j < |steps| ==>
                   && r.dumps[|dumps| + 2 * j].name == steps[j].runner.Name() + "_in"
                   && r.dumps[|dumps| + 2 * j + 1].name == steps[j].runner.Name() + "_out"
    decreases |steps|
  {
    if steps != [] {
      var name := steps[0].runner.Name();
      var before := dumps + [Snapshot(|dumps| + 1, name + "_in", Obj(s))];
      var r := apply(steps[0], s, sent);
      if r.outcome.Returned? {
        var after := before + [Snapshot(|before| + 1, name + "_out", Obj(r.outcome.out))];
        RunStepsFiles(steps[1..], r.outcome.out, apply, r.sent, after);
        RunStepsAppends(steps[1..], r.outcome.out, apply, r.sent, after);
        var rest := RunSteps(steps[1..], r.outcome.out, apply, r.sent, after);
        if rest.outcome.Returned? {
          forall j | 0 <= j < |steps|
            ensures rest.dumps[|dumps| + 2 * j].name == steps[j].runner.Name() + "_in"
            ensures rest.dumps[|dumps| + 2 * j + 1].name == steps[j].runner.Name() + "_out"
          {
            if j == 0 {
              assert rest.dumps[|dumps|] == rest.dumps[..|after|][|dumps|] == after[|dumps|];
              assert rest.dumps[|dumps| + 1] == rest.dumps[..|after|][|dumps| + 1] == after[|dumps| + 1];
            } else {
              assert steps[j] == steps[1..][j - 1];
            }
          }
        }
      }
    }
  }

  /**
   * `written` is what a run that started with `dumps` has written when it
   * fails at step `k`, a "stop" step: the "_in" and "_out" files of the steps
   * before it in order, then its own "_in" file, and nothing after.
   */
  ghost predicate StoppedAt(steps: seq<Step>, dumps: seq<Snapshot>, written: seq<Snapshot>, k: int)
  {
    && 0 <= k < |steps| && steps[k].onError == "stop"
    && |written| == |dumps| + 2 * k + 1
    && written[|dumps| + 2 * k].name == steps[k].runner.Name() + "_in"
    && forall j :: 0 <= j < k ==>
         && written[|dumps| + 2 * j].name == steps[j].runner.Name() + "_in"
         && written[|dumps| + 2 * j + 1].name == steps[j].runner.Name() + "_out"
  }

  /** A failure at step k of the rest of the steps, after the first step's two files, is a failure at step k + 1. */
  lemma StoppedAtCons(steps: seq<Step>, dumps: seq<Snapshot>, after: seq<Snapshot>, written: seq<Snapshot>, k: int)
    requires steps != [] && |after| == |dumps| + 2
    requires after[|dumps|].name == steps[0].runner.Name() + "_in"
    requires after[|dumps| + 1].name == steps[0].runner.Name() + "_out"
    requires StoppedAt(steps[1..], after, written, k) && written[..|after|] == after
    ensures StoppedAt(steps, dumps, written, k + 1)
  {
    assert steps[k + 1] == steps[1..][k];
    forall j | 0 <= j < k + 1
      ensures written[|dumps| + 2 * j].name == steps[j].runner.Name() + "_in"
      ensures written[|dumps| + 2 * j + 1].name == steps[j].runner.Name() + "_out"
    {
      if j == 0 {
        assert written[|dumps|] == written[..|after|][|dumps|];
        assert written[|dumps| + 1] == written[..|after|][|dumps| + 1];
      } else {
        assert steps[j] == steps[1..][j - 1];
      }
    }
  }

  /** A run that fails does so at a step whose policy is "stop", right after that step's "_in" file. */
  lemma {:induction false} RunStepsStops(steps: seq<Step>, s: State, apply: StepFn,
                                         sent: seq<Request>, dumps: seq<Snapshot>)
    requires RaisesOnlyAtStop(apply)
    ensures var r := RunSteps(steps, s, apply, sent, dumps);
            r.outcome.Raised? ==> exists k :: StoppedAt(steps, dumps, r.dumps, k)
    decreases |steps|
  {
    if steps != [] {
      var name := steps[0].runner.Name();
      var before := dumps + [Snapshot(|dumps| + 1, name + "_in", Obj(s))];
      var r := apply(steps[0], s, sent);
      if r.outcome.Returned? {
        var after := before + [Snapshot(|before| + 1, name + "_out", Obj(r.outcome.out))];
        RunStepsStops(steps[1..], r.outcome.out, apply, r.sent, after);
        RunStepsAppends(steps[1..], r.outcome.out, apply, r.sent, after);
        var rest := RunSteps(steps[1..], r.outcome.out, apply, r.sent, after);
        if rest.outcome.Raised? {
          var k :| StoppedAt(steps[1..], after, rest.dumps, k);
          StoppedAtCons(steps, dumps, after, rest.dumps, k);
          assert StoppedAt(steps, dumps, rest.dumps, k + 1);
        }
      } else {
        assert StoppedAt(steps, dumps, before, 0);
      }
    }
  }

  /**
   * A completed run ends with every key it started with plus every step's
   * output key, and nothing else; a key no step writes keeps its initial value.
   */
  lemma {:induction false} RunStepsKeys(steps: seq<Step>, s: State, apply: StepFn,
                                        sent: seq<Request>, dumps: seq<Snapshot>)
    requires MergesOutput(apply)
    ensures var r := RunSteps(steps, s, apply, sent, dumps);
            r.outcome.Returned? ==>
              && r.outcome.out.Keys == s.Keys + OutputKeys(steps)
              && forall k :: k in s && k !in OutputKeys(steps) ==> r.outcome.out[k] == s[k]
    decreases |steps|
  {
    if steps != [] {
      var name := steps[0].runner.Name();
      var before := dumps + [Snapshot(|dumps| + 1, name + "_in", Obj(s))];
      var r := apply(steps[0], s, sent);
      if r.outcome.Returned? {
        var next := r.outcome.out;
        var after := before + [Snapshot(|before| + 1, name + "_out", Obj(next))];
        RunStepsKeys(steps[1..], next, apply, r.sent, after);
        OutputKeysCons(steps);
      }
    }
  }

  lemma OutputKeysCons(steps: seq<Step>)
    requires steps != []
    ensures OutputKeys(steps) == {steps[0].runner.OutputKey()} + OutputKeys(steps[1..])
  {
    forall k | k in OutputKeys(steps)
      ensures k in {steps[0].runner.OutputKey()} + OutputKeys(steps[1..])
    {
      var j :| 0 <= j < |steps| && steps[j].runner.OutputKey() == k;
      if j > 0 {
        assert steps[1..][j - 1] == steps[j];
      }
    }
  }

  /** A pipeline with no "stop" step always completes: failures are recorded, never raised. */
  lemma {:induction false} RunStepsNeverRaises(steps: seq<Step>, s: State, apply: StepFn,
                                               sent: seq<Request>, dumps: seq<Snapshot>)
    requires RaisesOnlyAtStop(apply)
    requires forall j :: 0 <= j < |steps| ==> steps[j].onError != "stop"
    ensures RunSteps(steps, s, apply, sent, dumps).outcome.Returned?
    decreases |steps|
  {
    if steps != [] {
      var name := steps[0].runner.Name();
      var before := dumps + [Snapshot(|dumps| + 1, name + "_in", Obj(s))];
      var r := apply(steps[0], s, sent);
      var next := r.outcome.out;
      var after := before + [Snapshot(|before| + 1, name + "_out", Obj(next))];
      RunStepsNeverRaises(steps[1..], next, apply, r.sent, after);
    }
  }

  /** Steps whose runners are all mocks never talk to the model server. */
  lemma {:induction false} RunStepsMocksQuiet(steps: seq<Step>, s: State, apply: StepFn,
                                              sent: seq<Request>, dumps: seq<Snapshot>)
    requires MocksQuiet(apply)
    requires forall j :: 0 <= j < |steps| ==> steps[j].runner.Mock?
    ensures RunSteps(steps, s, apply, sent, dumps).sent == sent
    decreases |steps|
  {
    if steps != [] {
      var name := steps[0].runner.Name();
      var before := dumps + [Snapshot(|dumps| + 1, name + "_in", Obj(s))];
      var r := apply(steps[0], s, sent);
      if r.outcome.Returned? {
        var next := r.outcome.out;
        var after := before + [Snapshot(|before| + 1, name + "_out", Obj(next))];
        RunStepsMocksQuiet(steps[1..], next, apply, r.sent, after);
      }
    }
  }

  /** How a run ends, and what the server receives, do not depend on the trace files written before. */
  lemma {:induction false} RunStepsIgnoresDumps(steps: seq<Step>, s: State, apply: StepFn, sent: seq<Request>,
                                                dumps: seq<Snapshot>, dumps': seq<Snapshot>)
    ensures RunSteps(steps, s, apply, sent, dumps).outcome == RunSteps(steps, s, apply, sent, dumps').outcome
    ensures RunSteps(steps, s, apply, sent, dumps).sent == RunSteps(steps, s, apply, sent, dumps').sent
    decreases |steps|
  {
    if steps != [] {
      var name := steps[0].runner.Name();
      var before := dumps + [Snapshot(|dumps| + 1, name + "_in", Obj(s))];
      var before' := dumps' + [Snapshot(|dumps'| + 1, name + "_in", Obj(s))];
      var r := apply(steps[0], s, sent);
      if r.outcome.Returned? {
        var next := r.outcome.out;
        RunStepsIgnoresDumps(steps[1..], next, apply, r.sent,
                             before + [Snapshot(|before| + 1, name + "_out", Obj(next))],
                             before' + [Snapshot(|before'| + 1, name + "_out", Obj(next))]);
      }
    }
  }

  /** A first step that completes hands its state and what the server received on to the rest of the steps. */
  lemma RunStepsFirst(steps: seq<Step>, s: State, apply: StepFn, sent: seq<Request>, dumps: seq<Snapshot>)
    requires steps != [] && apply(steps[0], s, sent).outcome.Returned?
    ensures var r := apply(steps[0], s, sent);
            && RunSteps(steps, s, apply, sent, dumps).outcome == RunSteps(steps[1..], r.outcome.out, apply, r.sent, []).outcome
            && RunSteps(steps, s, apply, sent, dumps).sent == RunSteps(steps[1..], r.outcome.out, apply, r.sent, []).sent
  {
    var name := steps[0].runner.Name();
    var before := dumps + [Snapshot(|dumps| + 1, name + "_in", Obj(s))];
    var r := apply(steps[0], s, sent);
    RunStepsIgnoresDumps(steps[1..], r.outcome.out, apply, r.sent,
                         before + [Snapshot(|before| + 1, name + "_out", Obj(r.outcome.out))], []);
  }

  /** Numbered trace files all have distinct names: no dump overwrites another. */
  lemma NumberedFilesDistinct(dumps: seq<Snapshot>)
    requires Numbered(dumps)
    ensures forall i, j :: 0 <= i < j < |dumps| ==> dumps[i].File() != dumps[j].File()
  {
    forall i, j | 0 <= i < j < |dumps|
      ensures dumps[i].File() != dumps[j].File()
    {
      FileNamesDistinct(i + 1, j + 1, dumps[i].name, dumps[j].name);
    }
  }

  /**
   * `Pipeline.run` and its trace: the files written have distinct names; a
   * completed run of n steps writes 2n files, numbered 1 to 2n, an "_in" then
   * an "_out" file per step in step order; a failed run stops at a "stop"
   * step right after its "_in" file.
   */
  lemma PipelineTrace(p: Pipeline, initial: Option<State>, rt: Runtime,
                      reply: (nat, Request) -> Transport, sent: seq<Request>)
    ensures var r := PipelineRun(p, initial, rt, reply, sent);
            && (forall i, j :: 0 <= i < j < |r.dumps| ==> r.dumps[i].File() != r.dumps[j].File())
            && (forall j :: 0 <= j < |r.dumps| ==> r.dumps[j].n == j + 1)
            && (r.outcome.Returned? ==>
                  && |r.dumps| == 2 * |p.steps|
                  && forall j :: 0 <= j < |p.steps| ==>
                       && r.dumps[2 * j].name == p.steps[j].runner.Name() + "_in"
                       && r.dumps[2 * j + 1].name == p.steps[j].runner.Name() + "_out")
            && (r.outcome.Raised? ==> exists k :: StoppedAt(p.steps, [], r.dumps, k))
  {
    ApplierSteps(rt, reply);
    var apply := Applier(rt, reply);
    RunStepsNumbered(p.steps, InitialState(initial), apply, sent, []);
    RunStepsFiles(p.steps, InitialState(initial), apply, sent, []);
    RunStepsStops(p.steps, InitialState(initial), apply, sent, []);
    NumberedFilesDistinct(PipelineRun(p, initial, rt, reply, sent).dumps);
  }

  /**
   * A completed `Pipeline.run` ends with the initial keys plus every step's
   * output key, and a key no step writes keeps its initial value.
   */
  lemma PipelineKeys(p: Pipeline, initial: Option<State>, rt: Runtime,
                     reply: (nat, Request) -> Transport, sent: seq<Request>)
    ensures var r := PipelineRun(p, initial, rt, reply, sent);
            r.outcome.Returned? ==>
              && r.outcome.out.Keys == InitialState(initial).Keys + OutputKeys(p.steps)
              && forall k :: k in InitialState(initial) && k !in OutputKeys(p.steps) ==>
                   r.outcome.out[k] == InitialState(initial)[k]
  {
    ApplierSteps(rt, reply);
    RunStepsKeys(p.steps, InitialState(initial), Applier(rt, reply), sent, []);
  }

  /** A pipeline with no "stop" step always completes. */
  lemma PipelineNeverRaises(p: Pipeline, initial: Option<State>, rt: Runtime,
                            reply: (nat, Request) -> Transport, sent: seq<Request>)
    requires forall j :: 0 <= j < |p.steps| ==> p.steps[j].onError != "stop"
    ensures PipelineRun(p, initial, rt, reply, sent).outcome.Returned?
  {
    ApplierSteps(rt, reply);
    RunStepsNeverRaises(p.steps, InitialState(initial), Applier(rt, reply), sent, []);
  }

  /** A pipeline of mocks never talks to the model server. */
  lemma PipelineMocksQuiet(p: Pipeline, initial: Option<State>, rt: Runtime,
                           reply: (nat, Request) -> Transport, sent: seq<Request>)
    requires forall j :: 0 <= j < |p.steps| ==> p.steps[j].runner.Mock?
    ensures PipelineRun(p, initial, rt, reply, sent).sent == sent
  {
    ApplierSteps(rt, reply);
    RunStepsMocksQuiet(p.steps, InitialState(initial), Applier(rt, reply), sent, []);
  }
}

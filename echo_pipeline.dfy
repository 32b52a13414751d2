/**
 * The echo example: three mock agents — analyzer, classifier, replier — wired
 * into a pipeline that needs no model server. Each step takes the ticket text
 * and the outputs of the steps before it.
 */
module EchoPipeline {
  import opened Wrappers
  import opened Values
  import PyText
  import opened Ollama
  import opened Agents
  import opened MockAgents
  import opened Pipelines

  /** The example's input: one support ticket. */
  const TicketText: string := "Ticket #12847: App crashes on photo upload after update 2.3.1"

  function DefaultInput(): (s: State)
    ensures s.Keys == {"text"} && s["text"].Str?
    ensures |s["text"].s| <= 140
  {
    map["text" := Str(TicketText)]
  }

  /** The value the replier settles on for this pipeline: the classifier always names the mobile team. */
  function MobileReply(): Json
  {
    Obj(map["reply" := Str(ReplyFor("mobile")), "tone" := Str("calm")])
  }

  /** `build()`: analyzer, classifier and replier, each taking the text and every earlier output. */
  function Build(): (p: Pipeline)
    ensures NewPipeline(p.steps) == Ok(p)
    ensures |p.steps| == 3
    ensures forall j :: 0 <= j < 3 ==> p.steps[j].runner.Mock? && p.steps[j].onError == "continue"
    ensures p.steps[0].runner.mock == MockAgent("analyzer", "analyzer") && p.steps[0].takes == ["text"]
    ensures p.steps[1].runner.mock == MockAgent("classifier", "classifier") && p.steps[1].takes == ["text", "analyzer"]
    ensures p.steps[2].runner.mock == MockAgent("replier", "replier")
            && p.steps[2].takes == ["text", "analyzer", "classifier"]
  {
    Pipeline([NewStep(Mock(MockAgent("analyzer", "analyzer")), Some(["text"])),
              NewStep(Mock(MockAgent("classifier", "classifier")), Some(["text", "analyzer"])),
              NewStep(Mock(MockAgent("replier", "replier")), Some(["text", "analyzer", "classifier"]))])
  }

  /** The output keys of the echo pipeline. */
  lemma BuildOutputKeys()
    ensures OutputKeys(Build().steps) == {"analyzer", "classifier", "replier"}
  {
    var steps := Build().steps;
    OutputKeysCons(steps);
    OutputKeysCons(steps[1..]);
    OutputKeysCons(steps[2..]);
    assert steps[2..][1..] == [];
  }

  /** A classifier step, whatever it takes, always completes with the fixed classification. */
  lemma ClassifierStep(step: Step, s: State, rt: Runtime, reply: (nat, Request) -> Transport, sent: seq<Request>)
    requires step.runner == Mock(MockAgent("classifier", "classifier"))
    ensures var r := StepApply(step, s, rt, reply, sent);
            r.outcome.Returned? && r.outcome.out == s["classifier" := Classification()] && r.sent == sent
  {
    var r := StepApply(step, s, rt, reply, sent);
    assert r.outcome.out == s + map["classifier" := Classification()];
  }

  /** A replier step that is handed the fixed classification always names the mobile team. */
  lemma ReplierStep(step: Step, s: State, rt: Runtime, reply: (nat, Request) -> Transport, sent: seq<Request>)
    requires step.runner == Mock(MockAgent("replier", "replier"))
    requires step.takes == [] || "classifier" in step.takes
    requires "classifier" in s && s["classifier"] == Classification()
    ensures var r := StepApply(step, s, rt, reply, sent);
            r.outcome.Returned? && r.outcome.out == s["replier" := MobileReply()] && r.sent == sent
  {
    var inputs := StepInput(s, step.takes);
    assert inputs["classifier"] == Classification();
    assert PyText.OccursAt("mobile", "mobile", 0);
    ReplierNamesTeam("replier", inputs, map["priority" := Str("High"), "team" := Str("mobile"), "ticket_type" := Str("bug")],
                     [], "mobile");
    var r := StepApply(step, s, rt, reply, sent);
    assert r.outcome.out == s + map["replier" := MobileReply()];
  }

  /**
   * Whatever the initial state, the echo pipeline completes without talking
   * to the model server, writes six trace files, keeps the initial keys, adds
   * the three outputs, and the replier always names the mobile team.
   */
  lemma EchoRun(initial: Option<State>, rt: Runtime, reply: (nat, Request) -> Transport, sent: seq<Request>)
    ensures var r := PipelineRun(Build(), initial, rt, reply, sent);
            && r.outcome.Returned?
            && r.sent == sent
            && |r.dumps| == 6
            && r.outcome.out.Keys == InitialState(initial).Keys + {"analyzer", "classifier", "replier"}
            && r.outcome.out["classifier"] == Classification()
            && r.outcome.out["replier"] == MobileReply()
  {
    var p := Build();
    PipelineNeverRaises(p, initial, rt, reply, sent);
    PipelineMocksQuiet(p, initial, rt, reply, sent);
    PipelineTrace(p, initial, rt, reply, sent);
    PipelineKeys(p, initial, rt, reply, sent);
    BuildOutputKeys();
    EchoValues(initial, rt, reply, sent);
  }

  /** The state the echo pipeline ends with, step by step. */
  lemma EchoValues(initial: Option<State>, rt: Runtime, reply: (nat, Request) -> Transport, sent: seq<Request>)
    ensures var r := PipelineRun(Build(), initial, rt, reply, sent);
            var first := StepApply(Build().steps[0], InitialState(initial), rt, reply, sent);
            && first.outcome.Returned?
            && r.outcome == Returned(first.outcome.out["classifier" := Classification()]["replier" := MobileReply()])
  {
    var steps := Build().steps;
    var apply := Applier(rt, reply);
    ApplierSteps(rt, reply);
    var s0 := InitialState(initial);
    var r1 := apply(steps[0], s0, sent);
    assert r1.outcome.Returned?;
    RunStepsFirst(steps, s0, apply, sent, []);
    var s1 := r1.outcome.out;
    var r2 := apply(steps[1], s1, r1.sent);
    ClassifierStep(steps[1], s1, rt, reply, r1.sent);
    assert steps[1..][0] == steps[1] && steps[1..][1..] == steps[2..];
    RunStepsFirst(steps[1..], s1, apply, r1.sent, []);
    var s2 := r2.outcome.out;
    ReplierStep(steps[2], s2, rt, reply, r2.sent);
    assert steps[2..][0] == steps[2] && steps[2..][1..] == [];
    RunStepsFirst(steps[2..], s2, apply, r2.sent, []);
  }

  /** The analyzer's record for a text. */
  function Analysis(summary: string): Json
  {
    Arr([Obj(map["summary" := Str(summary), "category" := Str("Bug Report"), "root_cause" := Str("Crash on photo upload")])])
  }

  /** An analyzer step handed a text records the text's first 140 characters as its summary. */
  lemma AnalyzerStep(step: Step, s: State, rt: Runtime, reply: (nat, Request) -> Transport, sent: seq<Request>)
    requires step.runner == Mock(MockAgent("analyzer", "analyzer"))
    requires step.takes == [] || "text" in step.takes
    requires "text" in s && s["text"].Str?
    ensures var r := StepApply(step, s, rt, reply, sent);
            r.outcome.Returned? && r.outcome.out == s["analyzer" := Analysis(PyText.Take(s["text"].s, 140))] && r.sent == sent
  {
    var inputs := StepInput(s, step.takes);
    assert inputs["text"] == s["text"];
    var r := StepApply(step, s, rt, reply, sent);
    assert r.outcome.out == s + map["analyzer" := Analysis(PyText.Take(s["text"].s, 140))];
  }

  /**
   * A step that takes "text" hands the analyzer `None` when the state has no
   * text, so the analyzer's own empty-text default never applies: it raises,
   * and a "continue" step records the error under "analyzer".
   */
  lemma AnalyzerWithoutText(step: Step, s: State, rt: Runtime, reply: (nat, Request) -> Transport, sent: seq<Request>)
    requires step.runner == Mock(MockAgent("analyzer", "analyzer"))
    requires "text" in step.takes && step.onError == "continue"
    requires "text" !in s
    ensures var r := StepApply(step, s, rt, reply, sent);
            r.outcome == Returned(s["analyzer" := ExceptionRecord(NotSubscriptable("NoneType"))]) && r.sent == sent
  {
    var inputs := StepInput(s, step.takes);
    assert inputs["text"] == Null;
    assert TypeName(Null) == "NoneType";
    var r := StepApply(step, s, rt, reply, sent);
    assert r.outcome.out == s + map["analyzer" := ExceptionRecord(NotSubscriptable("NoneType"))];
  }

  /** Run on its default input, the echo pipeline ends in exactly this state. */
  lemma EchoDefault(rt: Runtime, reply: (nat, Request) -> Transport, sent: seq<Request>)
    ensures PipelineRun(Build(), Some(DefaultInput()), rt, reply, sent).outcome
            == Returned(map["text" := Str(TicketText), "analyzer" := Analysis(TicketText),
                            "classifier" := Classification(), "replier" := MobileReply()])
  {
    var steps := Build().steps;
    var s0 := DefaultInput();
    AnalyzerStep(steps[0], s0, rt, reply, sent);
    EchoValues(Some(s0), rt, reply, sent);
  }
}

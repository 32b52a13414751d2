/**
 * `Agent` and its `run`: render the prompt, call the model, turn the reply
 * into the expected JSON shape, and retry with an escalated prompt until the
 * reply validates or the attempts run out.
 */
module Agents {
  import opened Wrappers
  import opened Values
  import opened PyText
  import opened JsonHelpers
  import opened Ollama

  /**
   * An agent's configuration. It is never changed after construction. The
   * sampling temperature is only passed through to the server and is not
   * modelled.
   */
  datatype Agent = Agent(
    name: string,
    objective: string,
    model: string,
    prompt: string,
    expectsJson: bool,
    outputKey: string,
    systemHint: Option<string>,
    requiredKeys: seq<string>,
    retries: int)

  /** `Agent(...)` with the constructor's defaults; a missing list of required keys is the empty list. */
  function NewAgent(name: string, objective: string, model: string, prompt: string,
                    expectsJson: bool := false, outputKey: string := "output",
                    systemHint: Option<string> := None, requiredKeys: Option<seq<string>> := None,
                    retries: int := 1): (a: Agent)
    ensures a.requiredKeys == if requiredKeys.Some? then requiredKeys.value else []
    ensures a.name == name && a.outputKey == outputKey && a.retries == retries && a.expectsJson == expectsJson
    ensures a.objective == objective && a.model == model && a.prompt == prompt && a.systemHint == systemHint
  {
    Agent(name, objective, model, prompt, expectsJson, outputKey, systemHint,
          if requiredKeys.Some? then requiredKeys.value else [], retries)
  }

  /** What `self.prompt.format(**inputs, objective=self.objective)` gives. */
  datatype Rendered =
    | Rendered(text: string)
    | MissingVar(key: string)          // a KeyError; `key` is its printed form
    | FormatFailure(message: string)   // any other error the formatting raises

  /** The template renderer, kept abstract: template, inputs, objective. */
  type Renderer = (string, State, string) -> Rendered

  /** The collaborators an agent run needs besides the server. */
  datatype Runtime = Runtime(render: Renderer, codec: Codec)

  const JsonReminder: string := "\n\nReturn ONLY valid JSON."

  /** The total number of attempts, `retries + 1` (no attempt at all when that is not positive). */
  function Attempts(agent: Agent): int
  {
    agent.retries + 1
  }

  /** The rendered prompt, with the system hint in front when one is configured. */
  function WithHint(agent: Agent, rendered: string): string
  {
    if agent.systemHint.Some? && agent.systemHint.value != "" then
      agent.systemHint.value + "\n\n---\n" + rendered
    else rendered
  }

  /** The prompt of attempt `a`: the first as is, every later one with the JSON reminder appended. */
  function AttemptPrompt(p: string, a: nat): string
  {
    if a == 0 then p else p + JsonReminder
  }

  function AttemptRequest(agent: Agent, p: string, a: nat): Request
  {
    Request(agent.model, AttemptPrompt(p, a), agent.expectsJson)
  }

  /** The requests of attempts `a`, `a + 1`, ..., `a + n - 1`. */
  function AttemptRequests(agent: Agent, p: string, a: nat, n: nat): (rs: seq<Request>)
    ensures |rs| == n
    ensures forall k :: 0 <= k < n ==> rs[k] == AttemptRequest(agent, p, a + k)
  {
    seq(n, k requires 0 <= k < n => AttemptRequest(agent, p, a + k))
  }

  /** `json.loads(raw)`, falling back to `_extract_json(raw)`. */
  function Decode(raw: string, codec: Codec): Json
  {
    match codec.parse(raw)
    case Some(v) => v
    case None => ExtractJson(raw, codec.parse)
  }

  /** The value stored when every attempt failed: the stripped last reply, cut to 2000 characters. */
  function InvalidJson(lastRaw: string): Json
  {
    Obj(map["error" := Str("invalid_json"), "raw" := Str(Take(lastRaw, 2000))])
  }

  function MissingVarMessage(agent: Agent, key: string): string
  {
    "[" + agent.name + "] Missing var: " + key
  }

  /** How one attempt ends: the run is over, or another attempt follows (the reply text is kept). */
  datatype Attempt = Settled(outcome: Outcome) | Retry(reply: string)

  /** One attempt, given how the exchange with the server ended. */
  function TryAttempt(agent: Agent, t: Transport, codec: Codec): Attempt
  {
    match Generated(t, codec)
    case Err(message) => Settled(Raised(message))
    case Ok(raw) =>
      if !agent.expectsJson then Settled(Returned(map[agent.outputKey := Str(raw)]))
      else
        var obj := Coerce(Decode(raw, codec), agent.requiredKeys);
        if Validate(obj, agent.requiredKeys) == Pass then Settled(Returned(map[agent.outputKey := obj]))
        else Retry(raw)
  }

  /**
   * An attempt settles for a plain-text agent, or on a server failure, or on
   * a reply that passes the required-key check; what it returns is a dictionary
   * with the output key alone, and for a JSON agent the stored value passes
   * the check. A retry happens exactly when a JSON agent's reply fails it.
   */
  lemma TryAttemptShape(agent: Agent, t: Transport, codec: Codec)
    ensures var r := TryAttempt(agent, t, codec);
            && (!agent.expectsJson ==> r.Settled?)
            && (r.Retry? <==>
                  && agent.expectsJson && t.Body?
                  && Validate(Coerce(Decode(ReplyText(t.body, codec), codec), agent.requiredKeys), agent.requiredKeys) != Pass)
            && (r.Retry? ==> r.reply == ReplyText(t.body, codec))
            && (r.Settled? && r.outcome.Returned? ==> r.outcome.out.Keys == {agent.outputKey})
            && (r.Settled? && r.outcome.Returned? && agent.expectsJson ==>
                  Validate(r.outcome.out[agent.outputKey], agent.requiredKeys) == Pass)
            && (r.Settled? && r.outcome.Raised? <==> !t.Body?)
  {
  }

  /** How each answer of the server is judged: `TryAttempt` for this agent. */
  function Judge(agent: Agent, codec: Codec): Transport -> Attempt
  {
    t => TryAttempt(agent, t, codec)
  }

  /** The outcome of a run together with every request the server has received by its end. */
  datatype Run = Run(outcome: Outcome, sent: seq<Request>)

  /**
   * The attempt loop from attempt `a` on, each answer judged by `judge`;
   * `sent` is what the server has received so far.
   */
  function RunFrom(agent: Agent, p: string, a: nat, lastReply: string,
                   reply: (nat, Request) -> Transport, judge: Transport -> Attempt, sent: seq<Request>): Run
    decreases if a < Attempts(agent) then Attempts(agent) - a else 0
  {
    if a >= Attempts(agent) then Run(Returned(map[agent.outputKey := InvalidJson(Strip(lastReply))]), sent)
    else
      var req := AttemptRequest(agent, p, a);
      match judge(reply(|sent|, req))
      case Settled(outcome) => Run(outcome, sent + [req])
      case Retry(raw) => RunFrom(agent, p, a + 1, raw, reply, judge, sent + [req])
  }

  /** `Agent.run`, as a function of the inputs, the collaborators and what the server received before. */
  function AgentRun(agent: Agent, inputs: State, rt: Runtime,
                    reply: (nat, Request) -> Transport, sent: seq<Request>): Run
  {
    match rt.render(agent.prompt, inputs, agent.objective)
    case MissingVar(key) => Run(Raised(MissingVarMessage(agent, key)), sent)
    case FormatFailure(message) => Run(Raised(message), sent)
    case Rendered(text) => RunFrom(agent, WithHint(agent, text), 0, "", reply, Judge(agent, rt.codec), sent)
  }

  /** `Agent.run` as the source writes it: a loop over the attempts that talks to the server. */
  method RunAgent(agent: Agent, inputs: State, rt: Runtime, backend: Backend) returns (r: Outcome)
    modifies backend
    ensures Run(r, backend.sent) == AgentRun(agent, inputs, rt, backend.reply, old(backend.sent))
  {
    var rendered := rt.render(agent.prompt, inputs, agent.objective);
    if rendered.MissingVar? {
      return Raised(MissingVarMessage(agent, rendered.key));
    }
    if rendered.FormatFailure? {
      return Raised(rendered.message);
    }
    var p := rendered.text;
    if agent.systemHint.Some? && agent.systemHint.value != "" {
      p := agent.systemHint.value + "\n\n---\n" + p;
    }
    ghost var judge := Judge(agent, rt.codec);
    var attempts := agent.retries + 1;
    var lastRaw := "";
    ghost var lastReply := "";
    var a: nat := 0;
    ghost var run := AgentRun(agent, inputs, rt, backend.reply, backend.sent);
    while a < attempts
      invariant lastRaw == Strip(lastReply)
      invariant RunFrom(agent, p, a, lastReply, backend.reply, judge, backend.sent) == run
      decreases attempts - a
    {
      RunFromStep(agent, p, a, lastReply, backend.reply, judge, backend.sent);
      var res := TryOnce(agent, p, a, rt.codec, backend);
      if res.Settled? {
        return res.outcome;
      }
      lastRaw := Strip(res.reply);
      lastReply := res.reply;
      a := a + 1;
    }
    return Returned(map[agent.outputKey := InvalidJson(lastRaw)]);
  }

  /** The body of the attempt loop: send the request of attempt `a` and judge the answer. */
  method TryOnce(agent: Agent, p: string, a: nat, codec: Codec, backend: Backend) returns (r: Attempt)
    modifies backend
    ensures backend.sent == old(backend.sent) + [AttemptRequest(agent, p, a)]
    ensures r == TryAttempt(agent, backend.reply(|old(backend.sent)|, AttemptRequest(agent, p, a)), codec)
  {
    var got := backend.Generate(Request(agent.model, if a == 0 then p else p + JsonReminder, agent.expectsJson), codec);
    if got.Err? {
      return Settled(Raised(got.error));
    }
    var raw := got.value;
    if !agent.expectsJson {
      return Settled(Returned(map[agent.outputKey := Str(raw)]));
    }
    var obj, ok := ParseReply(raw, agent.requiredKeys, codec);
    if ok {
      return Settled(Returned(map[agent.outputKey := obj]));
    }
    return Retry(raw);
  }

  /**
   * The JSON half of one attempt: parse the reply (falling back to the first
   * embedded object or array), coerce it to the expected shape and check it.
   */
  method ParseReply(raw: string, required: seq<string>, codec: Codec) returns (obj: Json, ok: bool)
    ensures obj == Coerce(Decode(raw, codec), required)
    ensures ok <==> Validate(obj, required) == Pass
  {
    var parsed := codec.parse(raw);
    obj := if parsed.Some? then parsed.value else ExtractJson(raw, codec.parse);
    obj := CoerceJsonShape(obj, required);
    ok := Validate(obj, required) == Pass;
  }

  /** One turn of the loop: attempt `a` is sent and judged, then the loop ends or goes on. */
  lemma RunFromStep(agent: Agent, p: string, a: nat, lastRaw: string,
                    reply: (nat, Request) -> Transport, judge: Transport -> Attempt, sent: seq<Request>)
    requires a < Attempts(agent)
    ensures var req := AttemptRequest(agent, p, a);
            RunFrom(agent, p, a, lastRaw, reply, judge, sent)
            == match judge(reply(|sent|, req))
               case Settled(outcome) => Run(outcome, sent + [req])
               case Retry(raw) => RunFrom(agent, p, a + 1, raw, reply, judge, sent + [req])
  {
  }

  // ---------------------------------------------------------------------------
  // Properties of a run
  // ---------------------------------------------------------------------------

  /** How attempt `j` of a run that started with `sent0` is judged. */
  function AttemptAt(agent: Agent, p: string, j: nat, reply: (nat, Request) -> Transport,
                     judge: Transport -> Attempt, sent0: seq<Request>): Attempt
  {
    judge(reply(|sent0| + j, AttemptRequest(agent, p, j)))
  }

  /**
   * The loop from attempt `a` sends the requests of attempts `a`, `a + 1`, ...
   * in order, no more than the attempts left, and only adds to what was sent.
   */
  lemma {:induction false} RunFromRequests(agent: Agent, p: string, a: nat, lastRaw: string,
                                           reply: (nat, Request) -> Transport, judge: Transport -> Attempt, sent: seq<Request>)
    ensures var r := RunFrom(agent, p, a, lastRaw, reply, judge, sent);
            && |sent| <= |r.sent|
            && |r.sent| - |sent| <= (if a < Attempts(agent) then Attempts(agent) - a else 0)
            && r.sent == sent + AttemptRequests(agent, p, a, |r.sent| - |sent|)
    decreases if a < Attempts(agent) then Attempts(agent) - a else 0
  {
    var r := RunFrom(agent, p, a, lastRaw, reply, judge, sent);
    if a < Attempts(agent) {
      var req := AttemptRequest(agent, p, a);
      match judge(reply(|sent|, req)) {
        case Settled(_) =>
          assert AttemptRequests(agent, p, a, 1) == [req];
        case Retry(raw) =>
          RunFromRequests(agent, p, a + 1, raw, reply, judge, sent + [req]);
          var n := |r.sent| - |sent|;
          assert [req] + AttemptRequests(agent, p, a + 1, n - 1) == AttemptRequests(agent, p, a, n);
      }
    } else {
      assert AttemptRequests(agent, p, a, 0) == [];
    }
  }

  /**
   * A run whose template renders sends at most `retries + 1` requests: the
   * first with the prompt (hint first, when configured), every later one with
   * the JSON reminder appended, all to the agent's model with its JSON flag.
   * A template error raises before any request.
   */
  lemma AgentRunRequests(agent: Agent, inputs: State, rt: Runtime,
                         reply: (nat, Request) -> Transport, sent: seq<Request>)
    ensures var r := AgentRun(agent, inputs, rt, reply, sent);
            && |sent| <= |r.sent|
            && r.sent[..|sent|] == sent
            && |r.sent| - |sent| <= (if Attempts(agent) > 0 then Attempts(agent) else 0)
    ensures var r := AgentRun(agent, inputs, rt, reply, sent);
            var rendered := rt.render(agent.prompt, inputs, agent.objective);
            && (!rendered.Rendered? ==> r.outcome.Raised? && r.sent == sent)
            && (rendered.Rendered? ==>
                  forall k :: |sent| <= k < |r.sent| ==>
                    && r.sent[k].model == agent.model
                    && r.sent[k].jsonMode == agent.expectsJson
                    && r.sent[k].prompt == (if k == |sent| then WithHint(agent, rendered.text)
                                            else WithHint(agent, rendered.text) + JsonReminder))
  {
    var rendered := rt.render(agent.prompt, inputs, agent.objective);
    if rendered.Rendered? {
      RunFromFirstRequests(agent, WithHint(agent, rendered.text), reply, Judge(agent, rt.codec), sent);
    }
  }

  /** The requests of a whole attempt loop: the prompt first, then the prompt with the JSON reminder. */
  lemma RunFromFirstRequests(agent: Agent, p: string, reply: (nat, Request) -> Transport,
                             judge: Transport -> Attempt, sent: seq<Request>)
    ensures var r := RunFrom(agent, p, 0, "", reply, judge, sent);
            && |sent| <= |r.sent|
            && r.sent[..|sent|] == sent
            && |r.sent| - |sent| <= (if Attempts(agent) > 0 then Attempts(agent) else 0)
            && forall k :: |sent| <= k < |r.sent| ==>
                 && r.sent[k].model == agent.model
                 && r.sent[k].jsonMode == agent.expectsJson
                 && r.sent[k].prompt == (if k == |sent| then p else p + JsonReminder)
  {
    RunFromRequests(agent, p, 0, "", reply, judge, sent);
    var r := RunFrom(agent, p, 0, "", reply, judge, sent);
    assert r.sent[..|sent|] == sent;
    forall k | |sent| <= k < |r.sent|
      ensures r.sent[k] == AttemptRequest(agent, p, k - |sent|)
    {
      assert r.sent[k] == AttemptRequests(agent, p, 0, |r.sent| - |sent|)[k - |sent|];
    }
  }

  /**
   * Attempts before the one that settles are retried; the first attempt that
   * settles ends the loop and decides the outcome.
   */
  lemma {:induction false} RunFromFirstSettled(agent: Agent, p: string, a: nat, lastRaw: string,
                                               reply: (nat, Request) -> Transport, judge: Transport -> Attempt,
                                               sent0: seq<Request>, k: nat)
    requires a <= k < Attempts(agent)
    requires forall j :: a <= j < k ==> AttemptAt(agent, p, j, reply, judge, sent0).Retry?
    requires AttemptAt(agent, p, k, reply, judge, sent0).Settled?
    ensures RunFrom(agent, p, a, lastRaw, reply, judge, sent0 + AttemptRequests(agent, p, 0, a))
            == Run(AttemptAt(agent, p, k, reply, judge, sent0).outcome, sent0 + AttemptRequests(agent, p, 0, k + 1))
    decreases k - a
  {
    var sent := sent0 + AttemptRequests(agent, p, 0, a);
    var req := AttemptRequest(agent, p, a);
    assert |sent| == |sent0| + a;
    assert sent + [req] == sent0 + AttemptRequests(agent, p, 0, a + 1);
    if a < k {
      var t := AttemptAt(agent, p, a, reply, judge, sent0);
      RunFromFirstSettled(agent, p, a + 1, t.reply, reply, judge, sent0, k);
    }
  }

  /**
   * When no attempt settles, every attempt is made and the result is the
   * `invalid_json` record of the last stripped reply (empty when no attempt is
   * made at all).
   */
  lemma {:induction false} RunFromExhausted(agent: Agent, p: string, a: nat, lastRaw: string,
                                            reply: (nat, Request) -> Transport, judge: Transport -> Attempt,
                                            sent0: seq<Request>)
    requires forall j :: a <= j < Attempts(agent) ==> AttemptAt(agent, p, j, reply, judge, sent0).Retry?
    ensures var n := if a < Attempts(agent) then Attempts(agent) else a;
            var last := if a < Attempts(agent) then AttemptAt(agent, p, Attempts(agent) - 1, reply, judge, sent0).reply
                        else lastRaw;
            RunFrom(agent, p, a, lastRaw, reply, judge, sent0 + AttemptRequests(agent, p, 0, a))
            == Run(Returned(map[agent.outputKey := InvalidJson(Strip(last))]), sent0 + AttemptRequests(agent, p, 0, n))
    decreases if a < Attempts(agent) then Attempts(agent) - a else 0
  {
    if a < Attempts(agent) {
      var sent := sent0 + AttemptRequests(agent, p, 0, a);
      var req := AttemptRequest(agent, p, a);
      assert |sent| == |sent0| + a;
      assert sent + [req] == sent0 + AttemptRequests(agent, p, 0, a + 1);
      var t := AttemptAt(agent, p, a, reply, judge, sent0);
      assert judge(reply(|sent|, req)) == t;
      RunFromStep(agent, p, a, lastRaw, reply, judge, sent);
      RunFromExhausted(agent, p, a + 1, t.reply, reply, judge, sent0);
    }
  }

  /** First success wins: the run stops at the first attempt that settles, after exactly that many requests. */
  lemma AgentFirstSettledWins(agent: Agent, inputs: State, rt: Runtime,
                              reply: (nat, Request) -> Transport, sent: seq<Request>, text: string, k: nat)
    requires rt.render(agent.prompt, inputs, agent.objective) == Rendered(text)
    requires k < Attempts(agent)
    requires forall j :: 0 <= j < k ==> AttemptAt(agent, WithHint(agent, text), j, reply, Judge(agent, rt.codec), sent).Retry?
    requires AttemptAt(agent, WithHint(agent, text), k, reply, Judge(agent, rt.codec), sent).Settled?
    ensures AgentRun(agent, inputs, rt, reply, sent)
            == Run(AttemptAt(agent, WithHint(agent, text), k, reply, Judge(agent, rt.codec), sent).outcome,
                   sent + AttemptRequests(agent, WithHint(agent, text), 0, k + 1))
  {
    var p := WithHint(agent, text);
    assert sent + AttemptRequests(agent, p, 0, 0) == sent;
    RunFromFirstSettled(agent, p, 0, "", reply, Judge(agent, rt.codec), sent, k);
  }

  /**
   * When every attempt fails to validate, all `retries + 1` requests are made
   * and the agent returns `{output_key: {"error": "invalid_json", "raw": ...}}`
   * with the last reply, stripped and cut to 2000 characters.
   */
  lemma AgentExhausted(agent: Agent, inputs: State, rt: Runtime,
                       reply: (nat, Request) -> Transport, sent: seq<Request>, text: string)
    requires rt.render(agent.prompt, inputs, agent.objective) == Rendered(text)
    requires Attempts(agent) > 0
    requires forall j :: 0 <= j < Attempts(agent) ==> AttemptAt(agent, WithHint(agent, text), j, reply, Judge(agent, rt.codec), sent).Retry?
    ensures var p := WithHint(agent, text);
            var last := AttemptAt(agent, p, Attempts(agent) - 1, reply, Judge(agent, rt.codec), sent).reply;
            AgentRun(agent, inputs, rt, reply, sent)
            == Run(Returned(map[agent.outputKey := InvalidJson(Strip(last))]),
                   sent + AttemptRequests(agent, p, 0, Attempts(agent)))
  {
    var p := WithHint(agent, text);
    assert sent + AttemptRequests(agent, p, 0, 0) == sent;
    RunFromExhausted(agent, p, 0, "", reply, Judge(agent, rt.codec), sent);
  }

  /** With no attempt at all (`retries < 0`), nothing is sent and the `invalid_json` record holds an empty reply. */
  lemma AgentNoAttempts(agent: Agent, inputs: State, rt: Runtime,
                        reply: (nat, Request) -> Transport, sent: seq<Request>)
    requires rt.render(agent.prompt, inputs, agent.objective).Rendered?
    requires Attempts(agent) <= 0
    ensures AgentRun(agent, inputs, rt, reply, sent)
            == Run(Returned(map[agent.outputKey := Obj(map["error" := Str("invalid_json"), "raw" := Str("")])]), sent)
  {
  }

  /**
   * An agent that does not expect JSON makes exactly one request and returns
   * the reply text unstripped under its output key, or raises the server's
   * error.
   */
  lemma AgentPlainTextOneCall(agent: Agent, inputs: State, rt: Runtime,
                              reply: (nat, Request) -> Transport, sent: seq<Request>, text: string)
    requires rt.render(agent.prompt, inputs, agent.objective) == Rendered(text)
    requires !agent.expectsJson && Attempts(agent) > 0
    ensures var req := AttemptRequest(agent, WithHint(agent, text), 0);
            var r := AgentRun(agent, inputs, rt, reply, sent);
            && r.sent == sent + [req]
            && r.outcome == match Generated(reply(|sent|, req), rt.codec)
                            case Ok(raw) => Returned(map[agent.outputKey := Str(raw)])
                            case Err(message) => Raised(message)
  {
  }

  /**
   * With no required keys every parsed value validates, so a JSON agent never
   * retries: one request, and an unparseable reply is stored as `None`.
   */
  lemma AgentNoRequiredKeysOneCall(agent: Agent, inputs: State, rt: Runtime,
                                   reply: (nat, Request) -> Transport, sent: seq<Request>, text: string)
    requires rt.render(agent.prompt, inputs, agent.objective) == Rendered(text)
    requires agent.expectsJson && agent.requiredKeys == [] && Attempts(agent) > 0
    ensures var req := AttemptRequest(agent, WithHint(agent, text), 0);
            var r := AgentRun(agent, inputs, rt, reply, sent);
            && r.sent == sent + [req]
            && r.outcome == match Generated(reply(|sent|, req), rt.codec)
                            case Ok(raw) => Returned(map[agent.outputKey := Coerce(Decode(raw, rt.codec), [])])
                            case Err(message) => Raised(message)
  {
  }

  /**
   * Whatever an agent returns is a dictionary with its output key alone; for a
   * JSON agent the value either passes the required-key check or is the
   * `invalid_json` record.
   */
  lemma {:induction false} RunFromShape(agent: Agent, p: string, a: nat, lastRaw: string,
                                        reply: (nat, Request) -> Transport, codec: Codec, sent: seq<Request>)
    ensures var r := RunFrom(agent, p, a, lastRaw, reply, Judge(agent, codec), sent);
            r.outcome.Returned? ==>
              && r.outcome.out.Keys == {agent.outputKey}
              && (agent.expectsJson ==>
                    Validate(r.outcome.out[agent.outputKey], agent.requiredKeys) == Pass
                    || exists last :: r.outcome.out[agent.outputKey] == InvalidJson(last))
    decreases if a < Attempts(agent) then Attempts(agent) - a else 0
  {
    if a < Attempts(agent) {
      var req := AttemptRequest(agent, p, a);
      TryAttemptShape(agent, reply(|sent|, req), codec);
      match TryAttempt(agent, reply(|sent|, req), codec) {
        case Settled(_) =>
        case Retry(raw) =>
          RunFromShape(agent, p, a + 1, raw, reply, codec, sent + [req]);
      }
    } else {
      var r := RunFrom(agent, p, a, lastRaw, reply, Judge(agent, codec), sent);
      assert r.outcome.out[agent.outputKey] == InvalidJson(Strip(lastRaw));
    }
  }

  lemma AgentRunShape(agent: Agent, inputs: State, rt: Runtime,
                      reply: (nat, Request) -> Transport, sent: seq<Request>)
    ensures var r := AgentRun(agent, inputs, rt, reply, sent);
            r.outcome.Returned? ==>
              && r.outcome.out.Keys == {agent.outputKey}
              && (agent.expectsJson ==>
                    Validate(r.outcome.out[agent.outputKey], agent.requiredKeys) == Pass
                    || exists last :: r.outcome.out[agent.outputKey] == InvalidJson(last))
  {
    var rendered := rt.render(agent.prompt, inputs, agent.objective);
    if rendered.Rendered? {
      RunFromShape(agent, WithHint(agent, rendered.text), 0, "", reply, rt.codec, sent);
    }
  }

  /** The worked example: one attempt, a reply that is not JSON at all, required keys a and b. */
  lemma NotJsonAtAllExample(agent: Agent, inputs: State, rt: Runtime,
                            reply: (nat, Request) -> Transport, text: string)
    requires rt.render(agent.prompt, inputs, agent.objective) == Rendered(text)
    requires agent.expectsJson && agent.retries == 0 && agent.requiredKeys == ["a", "b"]
    requires reply(0, AttemptRequest(agent, WithHint(agent, text), 0)) == Body("not json at all")
    requires rt.codec.parse("not json at all") == None
    ensures AgentRun(agent, inputs, rt, reply, []).outcome
            == Returned(map[agent.outputKey := Obj(map["error" := Str("invalid_json"), "raw" := Str("not json at all")])])
  {
    var raw := "not json at all";
    assert Generated(Body(raw), rt.codec) == Ok(raw);
    assert FirstSpan(raw).None? by {
      forall k | 0 <= k < |raw| ensures !OpensSpan(raw, k) {
        assert !IsOpener(raw[k]);
      }
    }
    assert Decode(raw, rt.codec) == Null;
    assert Validate(Coerce(Null, ["a", "b"]), ["a", "b"]) == NotDictOrList;
    StripUntrimmed(raw);
    assert Take(raw, 2000) == raw;
    var p := WithHint(agent, text);
    var req := AttemptRequest(agent, p, 0);
    assert TryAttempt(agent, Body(raw), rt.codec) == Retry(raw);
    assert RunFrom(agent, p, 1, raw, reply, Judge(agent, rt.codec), [req]).outcome
           == Returned(map[agent.outputKey := InvalidJson(raw)]);
    RunFromStep(agent, p, 0, "", reply, Judge(agent, rt.codec), []);
  }
}

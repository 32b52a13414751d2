# SutraAI agent engine, modelled in Dafny

SutraAI runs local-first agent workflows: a `Pipeline` is a list of `Step`s,
each pairing an `Agent` with the state keys it reads and an error policy. An
`Agent` renders its prompt template from the step's inputs, asks a local Ollama
model server for a completion, and, when it expects JSON, parses the reply,
reshapes it (`_coerce_json_shape`) and validates it against its required keys
(`_validate`), retrying with an escalated prompt until a reply validates or the
attempts run out. A `Trace` writes the state before and after every step to
numbered files. The echo example wires three mock agents into a pipeline that
needs no model server.

The project models that engine:

- `values.dfy` — JSON values (`Json`), the pipeline state (`map<string, Json>`)
  and how a call ends (`Returned` with a dictionary or `Raised` with the error
  message).
- `text.dfy` — the string operations the engine relies on: `str.strip`,
  slicing to a length, substring search, decimal rendering of numbers and the
  two-digit padding of trace file numbers (with their round trips).
- `json_helpers.dfy` — `_extract_json`, `_validate`, `_WRAPPER_KEYS` and
  `_coerce_json_shape` (as a function, and as the loop it is in the source).
- `ollama.dfy` — how `Ollama.generate` picks the generated text out of the
  reply envelope, its two error messages, and the model server as an object
  that answers numbered requests and remembers what it was sent.
- `agents.dfy` — `Agent` and its retry loop `run`, as a method proved equal to
  a recursive specification function, with the properties of the loop proved
  about that function.
- `mock_agents.dfy` — the echo example's `MockAgent.run`, including the
  Python errors its lookups raise on values of the wrong type.
- `pipeline.dfy` — `Step.__call__`, `Pipeline` and `Pipeline.run`, the `Trace`
  class, and the properties of a run: error policy, keys of the final state,
  trace file numbering and names.
- `echo_pipeline.dfy` — `build()` and `DEFAULT_INPUT` of the echo example and
  what a run of that pipeline ends with.

`json.loads`, `json.dumps` and `str.format` are parameters (`Codec`,
`Renderer`): the engine's behaviour is proved for every parser, serialiser and
template renderer. The model server is a `Backend` whose answer to the n-th
request is a parameter, so every property holds for every sequence of replies.

Two behaviours of `Agent.run` (sutra.py:130-164) are worth stating outright:
it makes `retries + 1` attempts, so `retries == 0` still makes one call,
and a negative `retries` (-1 or less) makes no call at all
(`Agents.AgentNoAttempts`); and it never catches a failing model call,
so the first such failure ends the agent's run with that error, whatever
attempts remain (`Agents.TryAttemptShape`).

## Model

| member | source | states |
|---|---|---|
| PyText.Leading | sutra.py:148 | the number of leading whitespace characters never exceeds the length |
| PyText.LeadingSpaces | sutra.py:148 | the leading run counted is all whitespace and is followed by a non-whitespace character |
| PyText.Trailing | sutra.py:148 | the number of trailing whitespace characters never exceeds the length |
| PyText.TrailingSpaces | sutra.py:148 | the trailing run counted is all whitespace and is preceded by a non-whitespace character |
| PyText.StripTrims | sutra.py:148 | `raw.strip()` is a contiguous slice of the text, no longer than it, that neither starts nor ends with whitespace |
| PyText.StripUntrimmed | sutra.py:148 | a non-empty text with no whitespace at either end is unchanged by `strip()` |
| PyText.Strip | sutra.py:148 | definition of `str.strip()`: the text without its leading and trailing whitespace; its properties are stated by `PyText.StripTrims` and `PyText.StripUntrimmed` |
| PyText.Take | sutra.py:164 | slicing `[:n]` gives the first n characters, or the whole text when it is shorter |
| PyText.Contains | examples/echo_pipeline.py:28 | Python's substring test holds exactly when the needle occurs at some position of the text |
| PyText.OccursTail | examples/echo_pipeline.py:28 | when the needle is not at the front, it occurs in the text exactly when it occurs in the text's tail |
| PyText.DecimalDigits | sutra.py:39 | the decimal rendering of an HTTP status code is a non-empty string of digits |
| PyText.Pad2Digits | sutra.py:16 | a trace file number padded as `{i:02d}` has at least two characters, all digits |
| PyText.DigitPrefix | sutra.py:16 | the digits a file name starts with are a prefix of it |
| PyText.DecimalRoundTrip | sutra.py:16 | reading back a number's decimal rendering gives the number |
| PyText.LeadingZeroIgnored | sutra.py:16 | a leading zero does not change the number a string of digits reads as |
| PyText.Pad2RoundTrip | sutra.py:16 | reading back a zero-padded number gives the number |
| PyText.DigitPrefixOf | sutra.py:16 | the digit prefix of digits followed by a non-digit is exactly those digits |
| PyText.Decimal | sutra.py:39 | definition of `str(n)` for the HTTP status code: its decimal digits, most significant first; stated by `PyText.DecimalDigits` and `PyText.DecimalRoundTrip` |
| PyText.Pad2 | sutra.py:16 | definition of `{i:02d}`: the decimal digits, with a "0" in front below 10; stated by `PyText.Pad2Digits` and `PyText.Pad2RoundTrip` |
| JsonHelpers.IndexFrom | sutra.py:77 | the first position of a character at or after a start, or none when it does not occur there |
| JsonHelpers.SpanFrom | sutra.py:77 | the leftmost lazy match of `\{.*?\}` or `\[.*?\]` from a position, or none when no opener is followed by its closer |
| JsonHelpers.FirstSpan | sutra.py:77 | the regular expression's first match in the whole text; none exactly when no opener has a matching closer after it |
| JsonHelpers.LazyMatchOpens | sutra.py:77 | a match always starts at an opener that has a closer after it |
| JsonHelpers.FirstMatchUnique | sutra.py:77 | the regular expression's first match from a position is unique: two first matches have the same start and end |
| JsonHelpers.FirstSpanIsTheMatch | sutra.py:77 | any first match of the whole text is exactly the span `FirstSpan` finds |
| JsonHelpers.ExtractJson | sutra.py:67-80 | the whole text's parse when it parses; otherwise, for the first match of the regular expression, that span's parse when it parses and None when it does not; None when there is no match |
| JsonHelpers.Missing | sutra.py:88 | the required keys absent from a dictionary: a key is listed exactly when it is required and absent |
| JsonHelpers.MissingAppend | sutra.py:88 | the missing keys of a concatenation of key lists are those of the first list followed by those of the second, so the required order is kept |
| JsonHelpers.MissingOne | sutra.py:88 | a single required key is listed exactly when the dictionary lacks it |
| JsonHelpers.ValidateItems | sutra.py:84-90 | a list passes exactly when every element is a dictionary with all required keys; otherwise the first bad element is reported, as not a dictionary or with its missing keys |
| JsonHelpers.Validate | sutra.py:82-94 | no required keys always passes; a list passes exactly when every element has all keys, and a failing list is reported at its first bad item, as not a dictionary or with that item's missing keys; a dictionary passes exactly when it has them all, else reports what is missing; anything else fails as not a dictionary or list |
| JsonHelpers.WrapperFrom | sutra.py:101-104 | the first wrapper key, from a position on, whose value is a list, or none |
| JsonHelpers.Wrapper | sutra.py:96-104 | the first of `items`, `data`, `result`, `results`, `topics`, `list` whose value is a list; none when no wrapper key holds a list |
| JsonHelpers.Project | sutra.py:115-116 | with required keys, the result has exactly the required keys, each holding the dictionary's value when present and "" when absent; with none, the dictionary unchanged |
| JsonHelpers.Reshape | sutra.py:99-107 | definition of the first stage: a dictionary is replaced by the list under its first wrapper key, else by a one-item list of itself when it holds every required key, else kept; stated by `JsonHelpers.CoerceUnwrapsFirstWrapper` and `JsonHelpers.CoercePromotesOrKeeps` |
| JsonHelpers.RenameNotes | sutra.py:113-114 | definition: "notes" is renamed to "note" when "note" is absent; stated by `JsonHelpers.CoerceListOfDicts` |
| JsonHelpers.Coerce | sutra.py:98-119 | definition of `_coerce_json_shape` as a function; `JsonHelpers.CoerceJsonShape` is proved equal to it and the Coerce lemmas below state its properties |
| JsonHelpers.CoerceItems | sutra.py:108-118 | every dictionary of a list is reshaped element by element, keeping the length and the order |
| JsonHelpers.CoerceItem | sutra.py:112-117 | definition of one item of the second stage: the "notes" rename, then the projection onto the required keys; stated by `JsonHelpers.CoerceListOfDicts` and `JsonHelpers.CoerceItemIdempotent` |
| JsonHelpers.CoerceList | sutra.py:108-118 | definition of the second stage: a list of dictionaries is rebuilt item by item, any other list is returned as it is; stated by `JsonHelpers.CoerceListOfDicts` and `JsonHelpers.CoerceKeepsMixedList` |
| JsonHelpers.CoerceJsonShape | sutra.py:98-119 | the loop of `_coerce_json_shape` computes exactly the reshaping function `Coerce` |
| JsonHelpers.CoerceKeepsScalars | sutra.py:99-119 | None, numbers, strings and booleans pass through unchanged |
| JsonHelpers.CoerceUnwrapsFirstWrapper | sutra.py:100-104 | a dictionary with a wrapper key holding a list is replaced by the list under the first such key, then reshaped |
| JsonHelpers.CoercePromotesOrKeeps | sutra.py:105-107 | without a wrapper, a dictionary holding all required keys becomes a one-element list of its projection; any other dictionary is returned unchanged |
| JsonHelpers.CoerceListOfDicts | sutra.py:108-118 | a list of dictionaries stays a list of the same length; each element has "notes" renamed to "note" when "note" is absent, and with required keys holds exactly those keys, a missing one as "" |
| JsonHelpers.CoerceKeepsMixedList | sutra.py:111 | a list with any element that is not a dictionary is returned unchanged |
| JsonHelpers.CoerceThenValidate | sutra.py:159-160 | after reshaping, validation passes exactly when the result is a list of dictionaries (always, without required keys) |
| JsonHelpers.CoerceItemIdempotent | sutra.py:112-117 | reshaping one dictionary twice gives what reshaping it once gives, when "notes" is not required without "note" |
| JsonHelpers.CoerceIdempotent | sutra.py:98-119 | reshaping twice gives what reshaping once gives, when "notes" is not required without "note" |
| JsonHelpers.CoerceNotIdempotentWhenNotesRequired | sutra.py:113-116 | with "notes" required alone, a second reshaping changes a list whose element has both "note" and "notes" |
| JsonHelpers.NotesKeptOnFirstPass | sutra.py:113-116 | the first pass keeps "notes" when "note" is also present |
| JsonHelpers.NotesBlankedOnSecondPass | sutra.py:113-116 | the second pass renames "notes" to "note" and then blanks the required "notes" |
| JsonHelpers.CoerceSingleton | sutra.py:108-118 | a one-element list of a dictionary becomes the one-element list of its reshaped dictionary |
| JsonHelpers.CoerceDropsExtraKeys | sutra.py:105-116 | a dictionary holding the required keys and more is wrapped in a list and loses the extra keys |
| JsonHelpers.CoerceUnwrapsItems | sutra.py:100-118 | a dictionary wrapping a list under "items" yields that list, which then validates |
| Ollama.FirstKeyFrom | sutra.py:47-48 | the first of the candidate keys, from a position on, that the envelope holds, or none |
| Ollama.TextOf | sutra.py:50 | definition of `val if isinstance(val, str) else json.dumps(val)`, used at sutra.py:50 and sutra.py:57; stated by `Ollama.ReplyKeyPriority` |
| Ollama.ChoiceText | sutra.py:52-59 | definition: the text of `choices[0]`, its `text` or else `message` field for a dictionary, itself for a string, none otherwise; stated by `Ollama.ReplyTextFromChoices` |
| Ollama.EnvelopeText | sutra.py:44-61 | definition: the text of a parsed envelope, from the first reply field present, else from `choices[0]`, none when the raw body is to be returned; stated by `Ollama.ReplyKeyPriority` and `Ollama.ReplyTextFromChoices` |
| Ollama.ReplyText | sutra.py:43-64 | a body that does not parse, or parses to something other than a dictionary, is returned as it is |
| Ollama.ReplyTextFromChoices | sutra.py:51-61 | a dictionary without any reply field gives: the body when `choices` is not a non-empty list; the first choice itself when it is a string; the first choice's `text`, else its `message`, when it is a dictionary; the body when the first choice is a dictionary with neither or is any other value |
| Ollama.FailureMessage | sutra.py:34-41 | definition: the text of the RuntimeError for an HTTP error (its decimal status code and body) or a connection error; stated by `Ollama.GeneratedMessages` |
| Ollama.ReplyKeyPriority | sutra.py:46-50 | the first of `response`, `text`, `output`, `result` present wins, a string verbatim and anything else re-serialised |
| Ollama.ChoicesOnlyAsFallback | sutra.py:51-59 | `choices` is consulted only when no reply field is present: changing it then changes nothing |
| Ollama.FirstKeySame | sutra.py:47-48 | two envelopes that agree on the candidate keys pick the same key |
| Ollama.Generated | sutra.py:31-64 | a call fails exactly when the exchange did not deliver a body, and then with `FailureMessage`; a delivered body gives the text `ReplyText` picks from it |
| Ollama.GeneratedMessages | sutra.py:31-64 | an HTTP error fails with "Ollama HTTP error <code>: <body>", a connection error with "Ollama connection error: <reason>", and a body that is not JSON is returned unchanged |
| Ollama.Backend.Generate | sutra.py:25-64 | one request is sent and appended to what the server received; the result is the reply text or the error message for the server's answer to it |
| Agents.NewAgent | sutra.py:123-128 | the constructor keeps its arguments (name, objective, model, prompt, JSON flag, output key, hint, retries), and a missing list of required keys becomes the empty list |
| Agents.Attempts | sutra.py:139 | definition: `retries + 1` attempts; used by `Agents.AgentRunRequests`, `Agents.AgentExhausted` and `Agents.AgentNoAttempts` |
| Agents.WithHint | sutra.py:135-136 | definition: a non-empty system hint goes in front of the rendered prompt, followed by a blank line, "---" and a newline; stated by `Agents.AgentRunRequests` |
| Agents.AttemptPrompt | sutra.py:144 | definition: the first attempt sends the prompt, every later one the prompt with the JSON reminder appended; stated by `Agents.AttemptRequests` and `Agents.RunFromFirstRequests` |
| Agents.MissingVarMessage | sutra.py:133-134 | definition of the `ValueError` text for a template variable missing from the inputs |
| Agents.Decode | sutra.py:153-157 | definition: the reply's parse, falling back on `_extract_json` when it does not parse |
| Agents.InvalidJson | sutra.py:164 | definition: the `{"error": "invalid_json", "raw": ...}` record holding the first 2000 characters of the last stripped reply; used by `Agents.RunFromExhausted` and `Agents.AgentExhausted` |
| Agents.TryAttempt | sutra.py:143-162 | definition of one attempt: a server failure raises, a plain-text agent returns the reply, a JSON agent returns the reshaped reply when it validates and retries otherwise; stated by `Agents.TryAttemptShape` |
| Agents.RunFrom | sutra.py:139-164 | definition of the attempt loop from attempt `a` on, as a recursion; stated by the RunFrom lemmas and proved equal to the loop of `Agents.RunAgent` |
| Agents.AgentRun | sutra.py:130-164 | definition of `Agent.run` as a function: a template error raises, otherwise the attempt loop runs from attempt 0; `Agents.RunAgent` is proved equal to it and the Agent lemmas state its properties |
| Agents.AttemptRequests | sutra.py:142-147 | the k-th request of a run of attempts carries the model, the JSON flag and the prompt of attempt k |
| Agents.TryAttemptShape | sutra.py:143-162 | one attempt: plain text settles at once; a failing call raises; a JSON attempt retries exactly when its reshaped reply does not validate, and otherwise returns the output key alone holding a value that validates |
| Agents.RunAgent | sutra.py:130-164 | the retry loop of `Agent.run` returns and sends exactly what the specification function `AgentRun` says |
| Agents.TryOnce | sutra.py:143-162 | one attempt sends one request, with the attempt's prompt, and judges the server's answer to it |
| Agents.ParseReply | sutra.py:153-160 | the decoded reply is reshaped, and accepted exactly when it validates |
| Agents.RunFromStep | sutra.py:142-162 | one iteration of the retry loop: a settled attempt ends the run, a retry continues with the next attempt |
| Agents.RunFromRequests | sutra.py:142-147 | the requests a run sends are the successive attempts' requests, no more than the attempts left |
| Agents.RunFromFirstRequests | sutra.py:139-147 | a whole attempt loop only appends to what was sent, at most `retries + 1` requests, each to the agent's model with its JSON flag, the first with the prompt and every later one with the JSON reminder appended |
| Agents.AgentRunRequests | sutra.py:131-147 | a run sends at most retries + 1 requests, after what was sent before; a template error sends nothing; the first prompt is the rendered one with its hint, later ones add the JSON reminder |
| Agents.RunFromFirstSettled | sutra.py:142-162 | the first attempt that settles decides the outcome, after exactly that many requests |
| Agents.RunFromExhausted | sutra.py:142-164 | when every attempt retries, the result is the invalid-JSON record of the last stripped reply, after all the attempts |
| Agents.AgentFirstSettledWins | sutra.py:130-164 | after a rendered prompt, the run ends with the first attempt that settles, having sent one request per attempt up to it |
| Agents.AgentExhausted | sutra.py:139-164 | when no attempt validates, the output is `{"error": "invalid_json", "raw": ...}` holding the last stripped reply, after retries + 1 requests |
| Agents.AgentNoAttempts | sutra.py:139-164 | a negative retry budget makes no request and returns the invalid-JSON record with an empty reply |
| Agents.AgentPlainTextOneCall | sutra.py:150-151 | an agent that does not expect JSON makes exactly one request and returns the reply text, or raises the call's error |
| Agents.AgentNoRequiredKeysOneCall | sutra.py:150-162 | an agent expecting JSON with no required keys makes exactly one request and returns the reshaped reply |
| Agents.RunFromShape | sutra.py:142-164 | a completed run returns the output key alone; for a JSON agent its value validates or is the invalid-JSON record |
| Agents.AgentRunShape | sutra.py:130-164 | a completed `Agent.run` returns its output key alone, holding a validating value or the invalid-JSON record when it expects JSON |
| Agents.NotJsonAtAllExample | sutra.py:148-164 | with required keys "a" and "b", no retries and the reply "not json at all", the output is the invalid-JSON record holding that reply |
| MockAgents.Get | examples/echo_pipeline.py:13 | `d.get(key, default)` is the value under the key, or the default when it is absent |
| MockAgents.Head140 | examples/echo_pipeline.py:17 | `v[:140]` is the first 140 characters or elements; it fails exactly on values that are neither strings nor lists |
| MockAgents.First | examples/echo_pipeline.py:28 | `v[0]` succeeds exactly on a non-empty list or string, giving its first element or character |
| MockAgents.GetOn | examples/echo_pipeline.py:28 | `v.get("team", "")` succeeds exactly on a dictionary |
| MockAgents.In | examples/echo_pipeline.py:28 | `"mobile" in v` is substring search, list membership or key membership, and fails on any other value |
| MockAgents.MockShape | examples/echo_pipeline.py:12-31 | a mock returns its output key alone, only the analyzer and the replier can raise, and any other output key gives exactly `{key: "ok"}` |
| MockAgents.AnalyzerSummary | examples/echo_pipeline.py:13-18 | the analyzer completes exactly on a text or list; for a text its one record's summary is exactly the text's first 140 characters (the whole text when shorter) |
| MockAgents.ReplierNamesTeam | examples/echo_pipeline.py:24-30 | the replier names the mobile team exactly when the first classification's team contains "mobile", and engineering otherwise |
| MockAgents.ReplierWithoutClassification | examples/echo_pipeline.py:28 | with no classification at all the replier names engineering |
| MockAgents.ReplierOnNone | examples/echo_pipeline.py:28 | a classification of None makes the replier raise "'NoneType' object is not subscriptable" |
| MockAgents.MockRun | examples/echo_pipeline.py:12-31 | definition of `MockAgent.run` for the analyzer, classifier, replier and any other output key; stated by `MockAgents.MockShape`, `MockAgents.AnalyzerSummary` and the replier lemmas |
| MockAgents.ReplyFor | examples/echo_pipeline.py:28 | definition of the replier's sentence for a team |
| MockAgents.Classification | examples/echo_pipeline.py:21-23 | definition of the classifier's fixed answer |
| MockAgents.ReplierTeam | examples/echo_pipeline.py:28 | definition of the team the replier names, with the Python errors of each lookup; stated by `MockAgents.ReplierNamesTeam`, `MockAgents.ReplierWithoutClassification` and `MockAgents.ReplierOnNone` |
| Pipelines.CallRunner | sutra.py:172 | calling a step's runner returns and sends what `RunnerRun` says; a mock sends nothing |
| Pipelines.RunnerShape | sutra.py:172 | whatever a runner returns is a dictionary holding its output key alone |
| Pipelines.NewStep | sutra.py:167-168 | the constructor keeps the runner and the policy; a missing `takes` becomes the empty list |
| Pipelines.StepInput | sutra.py:170 | with no `takes` the step sees the whole state; otherwise exactly the keys it takes, None for those the state lacks |
| Pipelines.ExceptionRecord | sutra.py:175 | definition of the `{"error": "exception", "message": str(e)}` record; stated by `Pipelines.StepErrorPolicy` |
| Pipelines.RunnerRun | sutra.py:172 | definition of `self.agent.run(subset)`: `Agent.run` for a model-backed agent, `MockAgent.run` for a mock; stated by `Pipelines.RunnerShape` |
| Pipelines.StepApply | sutra.py:169-176 | definition of `Step.__call__` as a function; `Pipelines.CallStep` is proved equal to it and `Pipelines.StepKeys` and `Pipelines.StepErrorPolicy` state its properties |
| Pipelines.CallStep | sutra.py:169-176 | `Step.__call__` returns and sends exactly what the specification function `StepApply` says |
| Pipelines.StepKeys | sutra.py:169-176 | a completed step keeps every key of the state, adds its output key and changes no other value |
| Pipelines.StepErrorPolicy | sutra.py:171-176 | a step raises exactly when its runner raises under the "stop" policy; otherwise the error is recorded under the output key; a runner's result is merged over the state |
| Pipelines.NewPipeline | sutra.py:179-181 | a pipeline is refused with "Pipeline needs steps" exactly when it has no steps; a `Pipeline` value cannot hold an empty list |
| Pipelines.SeqNoOfFileName | sutra.py:16 | the number a trace file name starts with reads back as the dump's number |
| Pipelines.FileNamesDistinct | sutra.py:16 | trace files with different numbers have different names, whatever the step names |
| Pipelines.FileName | sutra.py:16 | definition of a trace file's name: the two-digit number, "_", the dump name and ".json"; stated by `Pipelines.SeqNoOfFileName` and `Pipelines.FileNamesDistinct` |
| Pipelines.Trace.constructor | sutra.py:9-13 | a new trace has written nothing and its counter is 0 |
| Pipelines.Trace.Dump | sutra.py:14-18 | a dump increments the counter and writes one more file, numbered with the new counter and holding the payload |
| Pipelines.RunPipeline | sutra.py:182-188 | the loop of `Pipeline.run` returns, sends and writes exactly what the specification function `PipelineRun` says, into a fresh trace |
| Pipelines.RunStepsLoop | sutra.py:184-187 | the loop over the steps returns, sends and writes exactly what `RunSteps` says for the step function it is given |
| Pipelines.TracedStep | sutra.py:185-187 | one turn writes the "_in" file, applies the step as `StepApply` says, and writes the "_out" file only when the step completes |
| Pipelines.RunStepsStep | sutra.py:184-187 | one turn of the run: a step that raises ends it after its "_in" file; otherwise the "_out" file follows and the rest of the steps run on the new state |
| Pipelines.RunSteps | sutra.py:184-188 | definition of the step loop of `Pipeline.run`: "_in" file, step, and "_out" file only when the step completes; `Pipelines.RunStepsLoop` is proved equal to it and the RunSteps lemmas state its properties |
| Pipelines.PipelineRun | sutra.py:182-188 | definition of `Pipeline.run` as a function, from `dict(initial or {})` and an empty trace; `Pipelines.RunPipeline` is proved equal to it |
| Pipelines.InitialState | sutra.py:183 | definition of `dict(initial or {})`: the initial state, or the empty state when there is none |
| Pipelines.ApplierSteps | sutra.py:169-176 | the step function raises only under "stop", merges its output key into the state, and sends nothing for a mock |
| Pipelines.OutputKeys | sutra.py:184-187 | the set of the steps' output keys: each step's key is in it and nothing else is |
| Pipelines.RunStepsAppends | sutra.py:184-187 | a run only appends trace files to those already written |
| Pipelines.RunStepsNumbered | sutra.py:184-187 | every trace file carries its position in the trace, counting from 1 |
| Pipelines.RunStepsFiles | sutra.py:184-187 | a completed run writes an "_in" then an "_out" file per step, in step order |
| Pipelines.StoppedAtCons | sutra.py:184-187 | a failure at step k of the remaining steps, once the first step's "_in" and "_out" files are written, is a failure at step k + 1 of the whole list |
| Pipelines.RunStepsStops | sutra.py:184-187 | a failed run stops at some "stop" step k: the files are the "_in" and "_out" files of steps 0 to k-1 in order, then step k's "_in" file, and nothing after |
| Pipelines.RunStepsKeys | sutra.py:184-187 | a completed run ends with the keys it started with plus the steps' output keys; a key no step writes keeps its value |
| Pipelines.OutputKeysCons | sutra.py:184-187 | the output keys of a list of steps are the first step's key and those of the rest |
| Pipelines.RunStepsNeverRaises | sutra.py:184-187 | with no "stop" step a run always completes |
| Pipelines.RunStepsMocksQuiet | sutra.py:184-187 | steps run by mocks never talk to the model server |
| Pipelines.RunStepsIgnoresDumps | sutra.py:184-187 | how a run ends, and what it sends, do not depend on the trace files written before |
| Pipelines.RunStepsFirst | sutra.py:184-187 | a first step that completes hands its state and what the server received to the rest of the steps |
| Pipelines.NumberedFilesDistinct | sutra.py:14-18 | numbered trace files all have distinct names, so no dump overwrites another |
| Pipelines.PipelineTrace | sutra.py:182-188 | a run's files have distinct names and are numbered 1, 2, ...; a completed run writes 2n files, an "_in" and an "_out" per step in order; a failed run stops at some "stop" step k, its files being the "_in"/"_out" pairs of steps 0 to k-1 in order followed by step k's "_in" file, 2k+1 in all |
| Pipelines.PipelineKeys | sutra.py:182-188 | a completed run ends with the initial keys plus every step's output key; a key no step writes keeps its initial value |
| Pipelines.PipelineNeverRaises | sutra.py:182-188 | a pipeline with no "stop" step always completes |
| Pipelines.PipelineMocksQuiet | sutra.py:182-188 | a pipeline of mocks sends nothing to the model server |
| EchoPipeline.DefaultInput | examples/echo_pipeline.py:46 | the default input holds the ticket text alone, a text of at most 140 characters |
| EchoPipeline.MobileReply | examples/echo_pipeline.py:27-30 | definition of the replier's answer naming the mobile team with a calm tone; stated by `EchoPipeline.ReplierStep` and `EchoPipeline.EchoRun` |
| EchoPipeline.Analysis | examples/echo_pipeline.py:16-18 | definition of the analyzer's one-record list for a summary; stated by `EchoPipeline.AnalyzerStep` and `EchoPipeline.EchoDefault` |
| EchoPipeline.Build | examples/echo_pipeline.py:34-44 | the pipeline is accepted by the `Pipeline` constructor and holds the analyzer, classifier and replier mocks in that order, each taking the text and the earlier outputs, all with the "continue" policy |
| EchoPipeline.BuildOutputKeys | examples/echo_pipeline.py:34-44 | the pipeline's output keys are analyzer, classifier and replier |
| EchoPipeline.ClassifierStep | examples/echo_pipeline.py:19-23 | a classifier step always completes, adding the fixed classification and sending nothing |
| EchoPipeline.ReplierStep | examples/echo_pipeline.py:24-30 | a replier step handed the fixed classification completes with the reply naming the mobile team |
| EchoPipeline.AnalyzerStep | examples/echo_pipeline.py:13-18 | an analyzer step handed a text adds a record summarising its first 140 characters |
| EchoPipeline.AnalyzerWithoutText | examples/echo_pipeline.py:13-18 | with no text in the state the analyzer is handed None, raises, and its step records the error under "analyzer" |
| EchoPipeline.EchoRun | examples/echo_pipeline.py:34-44 | for every initial state the pipeline completes, sends nothing, writes six files, adds the three outputs to the initial keys, and the reply names the mobile team |
| EchoPipeline.EchoValues | examples/echo_pipeline.py:34-44 | the final state is the analyzer step's state with the fixed classification and the mobile reply added |
| EchoPipeline.EchoDefault | examples/echo_pipeline.py:34-46 | on the default input the final state is exactly the ticket, its analysis, the classification and the mobile reply |

## Left out

- HTTP transport (`urllib`, the URL, headers, the timeout, the request payload's `temperature` and `stream` fields): the server is a parameter that answers the n-th request; `Request` keeps the model, the prompt and the JSON flag.
- `json.loads` and `json.dumps` are parameters (`Codec`): no JSON text grammar, escaping or number formatting is modelled, and properties hold for every parser and serialiser. A float is held as an exact real: NaN, infinities and rounding are not modelled.
- `str.format(**inputs, objective=...)` is a parameter (`Renderer`) that renders, reports a missing variable (the `KeyError` text it carries), or fails in some other way; the template language itself is not modelled.
- The trace's run directory, named by the start time, and the files' contents as indented JSON are not modelled: a trace is the list of numbered snapshots written. Two runs started in the same second share a directory; that is outside the model.
- `Agents.TryAttemptShape`: a retry keeps the unstripped reply text and only the last one is stripped for the invalid-JSON record, which gives the same record as stripping every reply, as `Agent.run` does.
- `Ollama.ReplyText`: its own contract covers only bodies that do not parse to a dictionary; for dictionaries the reply fields are stated by `Ollama.ReplyKeyPriority` and the `choices` fallback by `Ollama.ReplyTextFromChoices`.
- `JsonHelpers.Validate`: the reason string (Python's rendering of the missing-key list) is a `Verdict` value instead; `Agent.run` never reads it.
- `JsonHelpers.CoerceIdempotent`: proved only when "notes" is not required without "note"; otherwise a second reshaping can blank a "notes" value (`JsonHelpers.CoerceNotIdempotentWhenNotesRequired`).
- `Pipeline.__init__` keeps the caller's list itself, not a copy: a caller who empties or changes that list afterwards changes what `run` executes. That aliasing is not modelled: a `Pipeline` holds its own non-empty list of steps.
- The order of dictionary keys is not modelled: states and JSON objects are maps.
- `Step` and `Agent` are immutable values and states are values, so the copying done by `state.copy()` and `it.copy()` (no caller's dictionary is changed) holds by construction.
- The error messages of the echo mocks are those of Python 3.12.
- The command-line interface, `get_available_models`, the agent and pipeline scaffolding generators and the loading of pipeline files are not part of this model.

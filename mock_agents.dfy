/**
 * The in-process `MockAgent` of the echo example: it answers by its output key
 * without any model. Its lookups are plain Python operations on whatever the
 * pipeline hands it, so each of them is modelled with the error Python 3.12
 * raises when the value has the wrong type.
 */
module MockAgents {
  import opened Wrappers
  import opened Values
  import PyText

  datatype MockAgent = MockAgent(name: string, outputKey: string)

  /** `d.get(key, default)` on a dictionary. */
  function Get(d: State, key: string, default: Json): (v: Json)
    ensures key in d ==> v == d[key]
    ensures key !in d ==> v == default
  {
    if key in d then d[key] else default
  }

  /** The message of the `TypeError` raised by subscripting a value of type `t`. */
  function NotSubscriptable(t: string): string
  {
    "'" + t + "' object is not subscriptable"
  }

  /** `v[:140]`: a prefix of a string or a list; a dictionary looks the slice up as a key. */
  function Head140(v: Json): (r: Result<Json, string>)
    ensures v.Str? ==> r == Ok(Str(PyText.Take(v.s, 140)))
    ensures v.Arr? ==> r == Ok(Arr(PyText.Take(v.items, 140)))
    ensures r.Err? <==> !v.Str? && !v.Arr?
  {
    match v
    case Str(s) => Ok(Str(PyText.Take(s, 140)))
    case Arr(items) => Ok(Arr(PyText.Take(items, 140)))
    case Obj(_) => Err("slice(None, 140, None)")
    case _ => Err(NotSubscriptable(TypeName(v)))
  }

  /** `v[0]`. */
  function First(v: Json): (r: Result<Json, string>)
    ensures v.Arr? && v.items != [] ==> r == Ok(v.items[0])
    ensures v.Str? && v.s != [] ==> r == Ok(Str([v.s[0]]))
    ensures r.Ok? <==> (v.Arr? && v.items != []) || (v.Str? && v.s != [])
  {
    match v
    case Arr(items) => if items == [] then Err("list index out of range") else Ok(items[0])
    case Str(s) => if s == [] then Err("string index out of range") else Ok(Str([s[0]]))
    case Obj(_) => Err("0")  // JSON object keys are strings, so the integer key 0 is never present
    case _ => Err(NotSubscriptable(TypeName(v)))
  }

  /** `v.get(key, "")`: only dictionaries have `get`. */
  function GetOn(v: Json, key: string): (r: Result<Json, string>)
    ensures r.Ok? <==> v.Obj?
    ensures v.Obj? ==> r == Ok(Get(v.fields, key, Str("")))
  {
    if v.Obj? then Ok(Get(v.fields, key, Str("")))
    else Err("'" + TypeName(v) + "' object has no attribute 'get'")
  }

  /** `needle in v` for a string needle: substring, list membership or dictionary key. */
  function In(needle: string, v: Json): (r: Result<bool, string>)
    ensures v.Str? ==> r == Ok(PyText.Contains(v.s, needle))
    ensures v.Arr? ==> r == Ok(Str(needle) in v.items)
    ensures v.Obj? ==> r == Ok(needle in v.fields)
    ensures r.Err? <==> !v.Str? && !v.Arr? && !v.Obj?
  {
    match v
    case Str(s) => Ok(PyText.Contains(s, needle))
    case Arr(items) => Ok(Str(needle) in items)
    case Obj(fields) => Ok(needle in fields)
    case _ => Err("argument of type '" + TypeName(v) + "' is not iterable")
  }

  /** The replier's sentence for a team. */
  function ReplyFor(team: string): string
  {
    "Thanks for the report. We've identified the issue and our " + team + " team is on it."
  }

  /** The classifier's fixed answer. */
  function Classification(): Json
  {
    Arr([Obj(map["priority" := Str("High"), "team" := Str("mobile"), "ticket_type" := Str("bug")])])
  }

  /** The team the replier names: mobile when the first classification's team mentions it. */
  function ReplierTeam(inputs: State): Result<string, string>
  {
    match First(Get(inputs, "classifier", Arr([Obj(map[])])))
    case Err(e) => Err(e)
    case Ok(first) =>
      match GetOn(first, "team")
      case Err(e) => Err(e)
      case Ok(team) =>
        match In("mobile", team)
        case Err(e) => Err(e)
        case Ok(b) => Ok(if b then "mobile" else "engineering")
  }

  /** `MockAgent.run`: the answer for its output key, or the message of the error it raises. */
  function MockRun(m: MockAgent, inputs: State): Outcome
  {
    var text := Get(inputs, "text", Str(""));
    if m.outputKey == "analyzer" then
      match Head140(text)
      case Err(e) => Raised(e)
      case Ok(summary) =>
        Returned(map[m.outputKey := Arr([Obj(map["summary" := summary, "category" := Str("Bug Report"),
                                                 "root_cause" := Str("Crash on photo upload")])])])
    else if m.outputKey == "classifier" then
      Returned(map[m.outputKey := Classification()])
    else if m.outputKey == "replier" then
      match ReplierTeam(inputs)
      case Err(e) => Raised(e)
      case Ok(team) => Returned(map[m.outputKey := Obj(map["reply" := Str(ReplyFor(team)), "tone" := Str("calm")])])
    else
      Returned(map[m.outputKey := Str("ok")])
  }

  /** A mock returns a dictionary with its output key alone, and only the analyzer and the replier can raise. */
  lemma MockShape(m: MockAgent, inputs: State)
    ensures MockRun(m, inputs).Returned? ==> MockRun(m, inputs).out.Keys == {m.outputKey}
    ensures MockRun(m, inputs).Raised? ==> m.outputKey == "analyzer" || m.outputKey == "replier"
    ensures m.outputKey !in {"analyzer", "classifier", "replier"} ==> MockRun(m, inputs) == Returned(map[m.outputKey := Str("ok")])
  {
  }

  /**
   * The analyzer's summary is the first 140 characters of a text input (of the
   * empty text when there is none); any other kind of text value raises.
   */
  lemma AnalyzerSummary(name: string, inputs: State)
    ensures var r := MockRun(MockAgent(name, "analyzer"), inputs);
            var text := if "text" in inputs then inputs["text"] else Str("");
            && (r.Returned? <==> text.Str? || text.Arr?)
            && (text.Str? ==>
                  && r.Returned?
                  && r.out["analyzer"].Arr? && |r.out["analyzer"].items| == 1
                  && r.out["analyzer"].items[0].Obj?
                  && "summary" in r.out["analyzer"].items[0].fields
                  && var summary := r.out["analyzer"].items[0].fields["summary"];
                     summary == Str(PyText.Take(text.s, 140))
                     && |summary.s| <= 140 && summary.s <= text.s
                     && (|text.s| <= 140 ==> summary.s == text.s))
  {
  }

  /**
   * The replier names the mobile team exactly when the first classification is
   * a dictionary whose team text contains "mobile"; without any
   * classification it names engineering.
   */
  lemma ReplierNamesTeam(name: string, inputs: State, first: map<string, Json>, rest: seq<Json>, team: string)
    requires "classifier" in inputs && inputs["classifier"] == Arr([Obj(first)] + rest)
    requires "team" in first && first["team"] == Str(team)
    ensures var r := MockRun(MockAgent(name, "replier"), inputs);
            && r.Returned?
            && r.out["replier"] == Obj(map["reply" := Str(ReplyFor(if PyText.Contains(team, "mobile") then "mobile" else "engineering")),
                                           "tone" := Str("calm")])
            && (PyText.Contains(team, "mobile") <==> PyText.Occurs("mobile", team))
  {
    assert ([Obj(first)] + rest)[0] == Obj(first);
  }

  lemma ReplierWithoutClassification(name: string, inputs: State)
    requires "classifier" !in inputs
    ensures MockRun(MockAgent(name, "replier"), inputs)
            == Returned(map["replier" := Obj(map["reply" := Str(ReplyFor("engineering")), "tone" := Str("calm")])])
  {
    var empty: map<string, Json> := map[];
    assert "team" !in empty;
    assert !PyText.Contains("", "mobile");
  }

  /** A missing classification value (`None`, as a step's `takes` supplies it) makes the replier raise. */
  lemma ReplierOnNone(name: string, inputs: State)
    requires "classifier" in inputs && inputs["classifier"] == Null
    ensures MockRun(MockAgent(name, "replier"), inputs) == Raised(NotSubscriptable("NoneType"))
  {
    assert TypeName(Null) == "NoneType";
  }
}

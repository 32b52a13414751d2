/**
 * The model client `Ollama.generate`. The HTTP exchange itself is an oracle:
 * the model server is an object that answers the n-th request it receives with
 * a reply body or a failure. What the client does with a body — picking the
 * generated text out of the reply envelope — is modelled exactly.
 */
module Ollama {
  import opened Wrappers
  import opened Values
  import PyText

  /** `json.loads` (None when the text does not parse) and `json.dumps` in its default form. */
  datatype Codec = Codec(parse: string -> Option<Json>, dumps: Json -> string)

  /** One generate request: the model, the prompt and whether `format: "json"` was asked for. */
  datatype Request = Request(model: string, prompt: string, jsonMode: bool)

  /** How one HTTP exchange with the server ends. */
  datatype Transport =
    | Body(body: string)
    | HttpError(code: nat, errorBody: string)
    | ConnectionError(reason: string)

  /** Envelope fields that carry the generated text, in priority order. */
  const ReplyKeys: seq<string> := ["response", "text", "output", "result"]

  /** Fields of `choices[0]` that carry the generated text, in priority order. */
  const ChoiceKeys: seq<string> := ["text", "message"]

  /** The index of the first key of `keys`, from position `i` on, present in `m`. */
  function FirstKeyFrom(m: map<string, Json>, keys: seq<string>, i: nat): (r: Option<nat>)
    requires i <= |keys|
    ensures r.Some? ==> i <= r.value < |keys| && keys[r.value] in m
                        && forall j :: i <= j < r.value ==> keys[j] !in m
    ensures r.None? ==> forall j :: i <= j < |keys| ==> keys[j] !in m
    decreases |keys| - i
  {
    if i == |keys| then None
    else if keys[i] in m then Some(i)
    else FirstKeyFrom(m, keys, i + 1)
  }

  /** A string value is the text itself; anything else is re-serialised. */
  function TextOf(v: Json, codec: Codec): string
  {
    if v.Str? then v.s else codec.dumps(v)
  }

  /** The text `choices[0]` yields: a field of a dictionary, or the string itself. */
  function ChoiceText(choice: Json, codec: Codec): Option<string>
  {
    match choice
    case Obj(c) =>
      (match FirstKeyFrom(c, ChoiceKeys, 0)
       case Some(i) => Some(TextOf(c[ChoiceKeys[i]], codec))
       case None => None)
    case Str(s) => Some(s)
    case _ => None
  }

  /** The text a parsed reply envelope yields, or None when the raw body is to be returned. */
  function EnvelopeText(j: Json, codec: Codec): Option<string>
  {
    if !j.Obj? then None
    else
      match FirstKeyFrom(j.fields, ReplyKeys, 0)
      case Some(i) => Some(TextOf(j.fields[ReplyKeys[i]], codec))
      case None =>
        if "choices" in j.fields && j.fields["choices"].Arr? && j.fields["choices"].items != [] then
          ChoiceText(j.fields["choices"].items[0], codec)
        else None
  }

  /**
   * The text `Ollama.generate` returns for a reply body: the envelope's text
   * when the body is a JSON object that carries one, otherwise the body as is.
   */
  function ReplyText(body: string, codec: Codec): (text: string)
    ensures codec.parse(body).None? ==> text == body
    ensures codec.parse(body).Some? && !codec.parse(body).value.Obj? ==> text == body
  {
    match codec.parse(body)
    case None => body
    case Some(j) =>
      match EnvelopeText(j, codec)
      case Some(t) => t
      case None => body
  }

  /** The first reply field present wins; a string value is returned verbatim. */
  lemma ReplyKeyPriority(m: map<string, Json>, i: nat, codec: Codec)
    requires i < |ReplyKeys| && ReplyKeys[i] in m
    requires forall j :: 0 <= j < i ==> ReplyKeys[j] !in m
    ensures EnvelopeText(Obj(m), codec) == Some(TextOf(m[ReplyKeys[i]], codec))
    ensures m[ReplyKeys[i]].Str? ==> EnvelopeText(Obj(m), codec) == Some(m[ReplyKeys[i]].s)
  {
    assert FirstKeyFrom(m, ReplyKeys, 0) == Some(i);
  }

  /** `choices` is only consulted when no reply field is present: changing it changes nothing otherwise. */
  lemma ChoicesOnlyAsFallback(m: map<string, Json>, choices: Json, codec: Codec)
    requires exists i :: 0 <= i < |ReplyKeys| && ReplyKeys[i] in m
    ensures EnvelopeText(Obj(m["choices" := choices]), codec) == EnvelopeText(Obj(m), codec)
  {
    var m' := m["choices" := choices];
    assert forall j :: 0 <= j < |ReplyKeys| ==> ReplyKeys[j] != "choices";
    assert forall j :: 0 <= j < |ReplyKeys| ==> (ReplyKeys[j] in m' <==> ReplyKeys[j] in m);
    FirstKeySame(m, m', ReplyKeys, 0);
  }

  /**
   * A dictionary reply without any reply field falls back on `choices`: a
   * non-empty list whose first element is a string gives that string, a
   * dictionary gives its `text`, else its `message`; anything else, and a
   * dictionary with neither field, gives back the raw body.
   */
  lemma ReplyTextFromChoices(body: string, m: map<string, Json>, codec: Codec)
    requires codec.parse(body) == Some(Obj(m))
    requires forall j :: 0 <= j < |ReplyKeys| ==> ReplyKeys[j] !in m
    ensures !("choices" in m && m["choices"].Arr? && m["choices"].items != []) ==> ReplyText(body, codec) == body
    ensures "choices" in m && m["choices"].Arr? && m["choices"].items != [] ==>
              var choice := m["choices"].items[0];
              && (choice.Str? ==> ReplyText(body, codec) == choice.s)
              && (choice.Obj? && "text" in choice.fields ==> ReplyText(body, codec) == TextOf(choice.fields["text"], codec))
              && (choice.Obj? && "text" !in choice.fields && "message" in choice.fields ==>
                    ReplyText(body, codec) == TextOf(choice.fields["message"], codec))
              && (choice.Obj? && "text" !in choice.fields && "message" !in choice.fields ==> ReplyText(body, codec) == body)
              && (!choice.Str? && !choice.Obj? ==> ReplyText(body, codec) == body)
  {
    assert FirstKeyFrom(m, ReplyKeys, 0).None?;
    if "choices" in m && m["choices"].Arr? && m["choices"].items != [] {
      var choice := m["choices"].items[0];
      if choice.Obj? {
        var c := choice.fields;
        if "text" in c {
          assert FirstKeyFrom(c, ChoiceKeys, 0) == Some(0);
        } else if "message" in c {
          assert FirstKeyFrom(c, ChoiceKeys, 0) == Some(1);
        } else {
          assert FirstKeyFrom(c, ChoiceKeys, 0) == None;
        }
      }
    }
  }

  lemma {:induction false} FirstKeySame(m: map<string, Json>, m': map<string, Json>, keys: seq<string>, i: nat)
    requires i <= |keys|
    requires forall j :: 0 <= j < |keys| ==> (keys[j] in m' <==> keys[j] in m)
    requires forall j :: 0 <= j < |keys| && keys[j] in m ==> m'[keys[j]] == m[keys[j]]
    ensures FirstKeyFrom(m', keys, i) == FirstKeyFrom(m, keys, i)
    decreases |keys| - i
  {
    if i < |keys| {
      FirstKeySame(m, m', keys, i + 1);
    }
  }

  /** `str(e)` of the RuntimeError raised when the exchange fails. */
  function FailureMessage(t: Transport): string
    requires !t.Body?
  {
    match t
    case HttpError(code, b) => "Ollama HTTP error " + PyText.Decimal(code) + ": " + b
    case ConnectionError(reason) => "Ollama connection error: " + reason
  }

  /** What one call of `generate` gives: the reply text, or the message of the error it raises. */
  function Generated(t: Transport, codec: Codec): (r: Result<string, string>)
    ensures r.Err? <==> !t.Body?
    ensures t.Body? ==> r == Ok(ReplyText(t.body, codec))
    ensures !t.Body? ==> r == Err(FailureMessage(t))
  {
    match t
    case Body(b) => Ok(ReplyText(b, codec))
    case _ => Err(FailureMessage(t))
  }

  /**
   * The two errors `generate` raises, as their messages read, and a body that
   * is not JSON coming back unchanged.
   */
  lemma GeneratedMessages(t: Transport, codec: Codec)
    ensures t.HttpError? ==>
              Generated(t, codec) == Err("Ollama HTTP error " + PyText.Decimal(t.code) + ": " + t.errorBody)
    ensures t.ConnectionError? ==> Generated(t, codec) == Err("Ollama connection error: " + t.reason)
    ensures t.Body? && codec.parse(t.body).None? ==> Generated(t, codec) == Ok(t.body)
  {
  }

  /** The model server, seen from the engine: it answers requests and remembers what it was sent. */
  class Backend {
    /** The answer to the n-th request received (counting from 0). */
    const reply: (nat, Request) -> Transport
    /** Every request received so far, in order. */
    var sent: seq<Request>

    constructor (reply: (nat, Request) -> Transport)
      ensures this.reply == reply && sent == []
    {
      this.reply := reply;
      sent := [];
    }

    /** `Ollama.generate`: one request, one answer; no retry at this level. */
    method Generate(req: Request, codec: Codec) returns (r: Result<string, string>)
      modifies this
      ensures sent == old(sent) + [req]
      ensures r == Generated(reply(|old(sent)|, req), codec)
    {
      var t := reply(|sent|, req);
      sent := sent + [req];
      match t {
        case Body(body) =>
          var text := body;
          var j := codec.parse(body);
          if j.Some? {
            var e := EnvelopeText(j.value, codec);
            if e.Some? {
              text := e.value;
            }
          }
          r := Ok(text);
        case HttpError(_, _) =>
          r := Err(FailureMessage(t));
        case ConnectionError(_) =>
          r := Err(FailureMessage(t));
      }
    }
  }
}

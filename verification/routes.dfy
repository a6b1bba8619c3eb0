/** What the two server handlers share once the language model has answered:
    the empty-content check, cleaning, parsing and the presence check of the
    required top-level fields. Each step that fails ends the request with a
    fixed status and message. The model call itself and `JSON.parse` are not
    modelled: the first is the `Completion` it produced, the second a
    parameter. */
module Routes {
  import opened Wrappers
  import opened Json
  import opened Fences

  /** The outcome of `chat.completions.create`: it threw (network or service
      failure), or it answered and `choices[0]?.message?.content` was read. */
  datatype Completion = Threw | Answered(content: Option<string>)

  /** `NextResponse.json(body, { status })`. */
  datatype Reply = Reply(status: nat, body: Json)

  const NO_KEY: string := "OpenRouter API key not configured"
  const NO_RESPONSE: string := "No response from AI"
  const PARSE_FAILED: string := "Failed to parse AI response"
  const INVALID_STRUCTURE: string := "Invalid response structure from AI"

  function ErrorReply(status: nat, message: string): Reply
  {
    Reply(status, Single("error", message))
  }

  /** The request body could be read and destructured: `request.json()`
      rejects an unreadable body (`None`), and destructuring `null` throws. */
  predicate Destructurable(body: Option<Json>)
  {
    body.Some? && body.value != JNull
  }

  /** `!v.k1 || !v.k2 || ...` is false: every required field is truthy. */
  predicate HasFields(v: Json, keys: seq<string>)
    requires v != JNull
  {
    forall i :: 0 <= i < |keys| ==> Truthy(Prop(v, keys[i]))
  }

  /** Passing the presence check means being an object that holds every
      required key with a truthy value, which is what a receiver of a 200
      reply relies on; a non-object passes only an empty check. */
  lemma {:induction false} HasFieldsIsObjectWithKeys(v: Json, keys: seq<string>)
    requires v != JNull
    ensures HasFields(v, keys) && keys != [] ==> v.JObject?
    ensures HasFields(v, keys) <==>
              keys == [] || (v.JObject? && forall i :: 0 <= i < |keys| ==> keys[i] in v.fields && Truthy(Some(v.fields[keys[i]])))
  {
    if HasFields(v, keys) && keys != [] {
      assert Truthy(Prop(v, keys[0]));
    }
  }

  /** From the model's answer to the handler's reply. `failure` is the
      handler's catch-all message: it answers a model call that threw, and a
      parsed `null`, whose property read throws a TypeError. A 200 reply
      carries the parsed value itself, never a partial or repaired one. */
  function Complete(c: Completion, parse: string -> Option<Json>, required: seq<string>, failure: string): (r: Reply)
    ensures r.status == 200 || r.status == 500
    ensures c.Threw? ==> r == ErrorReply(500, failure)
    ensures c.Answered? && !Truthy(if c.content.Some? then Some(JString(c.content.value)) else None)
            ==> r == ErrorReply(500, NO_RESPONSE)
    ensures c.Answered? && c.content.Some? && c.content.value != "" && parse(Clean(c.content.value)).None?
            ==> r == ErrorReply(500, PARSE_FAILED)
    ensures c.Answered? && c.content.Some? && c.content.value != "" && parse(Clean(c.content.value)) == Some(JNull)
            ==> r == ErrorReply(500, failure)
    ensures c.Answered? && c.content.Some? && c.content.value != ""
            && parse(Clean(c.content.value)).Some? && parse(Clean(c.content.value)).value != JNull
            && !HasFields(parse(Clean(c.content.value)).value, required)
            ==> r == ErrorReply(500, INVALID_STRUCTURE)
    ensures r.status == 200 <==>
              c.Answered? && c.content.Some? && c.content.value != ""
              && var parsed := parse(Clean(c.content.value));
                 parsed.Some? && parsed.value != JNull && HasFields(parsed.value, required)
    ensures r.status == 200 ==> r.body == parse(Clean(c.content.value)).value
  {
    match c
    case Threw => ErrorReply(500, failure)
    case Answered(content) =>
      if content.None? || content.value == "" then ErrorReply(500, NO_RESPONSE)
      else
        match parse(Clean(content.value))
        case None => ErrorReply(500, PARSE_FAILED)
        case Some(v) =>
          if v == JNull then ErrorReply(500, failure)
          else if !HasFields(v, required) then ErrorReply(500, INVALID_STRUCTURE)
          else Reply(200, v)
  }

  /** A well-formed reply wrapped in a ```json fence is answered exactly as the
      same reply without the fence. The JSON must be non-empty: an empty
      unfenced reply is "No response from AI", while the fenced one is not
      empty and fails to parse instead. */
  lemma CompleteIgnoresFence(json: string, parse: string -> Option<Json>, required: seq<string>, failure: string)
    requires NoBacktick(json) && IsTrimmed(json) && json != ""
    ensures Complete(Answered(Some(Fenced(json))), parse, required, failure)
         == Complete(Answered(Some(json)), parse, required, failure)
  {
    CleanFenced(json);
  }
}

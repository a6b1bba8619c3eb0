/** The object-analysis handler (src/app/api/analyze/route.ts): the guards
    that run before the model is called, then the shared completion chain
    with the four fields of a provenance record. */
module AnalyzeRoute {
  import opened Wrappers
  import opened Json
  import opened Fences
  import opened Routes

  const NO_IMAGE: string := "No image provided"
  const ANALYZE_FAILED: string := "Failed to analyze image"
  const PROVENANCE_FIELDS: seq<string> := ["title", "summary", "timeline", "components"]

  /** `const { image } = await request.json()`. */
  function Image(body: Option<Json>): Option<Json>
    requires Destructurable(body)
  {
    Prop(body.value, "image")
  }

  /** `POST /api/analyze`. `apiKeyConfigured` stands for reading the key from
      the environment, and `gateway` for the model call, which receives the
      image and answers with a completion. */
  function Analyze(body: Option<Json>, apiKeyConfigured: bool, gateway: Json -> Completion,
                   parse: string -> Option<Json>): (r: Reply)
    ensures !Destructurable(body) ==> r == ErrorReply(500, ANALYZE_FAILED)
    ensures r.status == 400 <==> Destructurable(body) && !Truthy(Image(body))
    ensures r.status == 400 ==> r == ErrorReply(400, NO_IMAGE)
    ensures Destructurable(body) && Truthy(Image(body)) && !apiKeyConfigured
            ==> r == ErrorReply(500, NO_KEY)
    ensures r.status == 200 ==>
              Destructurable(body) && Truthy(Image(body)) && apiKeyConfigured
              && var c := gateway(Image(body).value);
                 c.Answered? && c.content.Some? && Some(r.body) == parse(Clean(c.content.value))
                 && r.body != JNull && HasFields(r.body, PROVENANCE_FIELDS)
  {
    if !Destructurable(body) then ErrorReply(500, ANALYZE_FAILED)
    else if !Truthy(Image(body)) then ErrorReply(400, NO_IMAGE)
    else if !apiKeyConfigured then ErrorReply(500, NO_KEY)
    else Complete(gateway(Image(body).value), parse, PROVENANCE_FIELDS, ANALYZE_FAILED)
  }

  /** Once the guards pass, the reply is decided by the completion alone:
      a thrown call is the catch-all 500, empty content is "No response from
      AI", an unparsable reply is "Failed to parse AI response", a parsed
      value missing a required field is "Invalid response structure from AI",
      and otherwise the parsed value is returned unchanged with status 200. */
  lemma AnalyzeAfterGuards(body: Option<Json>, gateway: Json -> Completion, parse: string -> Option<Json>)
    requires Destructurable(body) && Truthy(Image(body))
    ensures var c := gateway(Image(body).value);
            var r := Analyze(body, true, gateway, parse);
            (c.Threw? ==> r == ErrorReply(500, ANALYZE_FAILED))
            && (c.Answered? && (c.content.None? || c.content.value == "") ==> r == ErrorReply(500, NO_RESPONSE))
            && (c.Answered? && c.content.Some? && c.content.value != "" ==>
                  var parsed := parse(Clean(c.content.value));
                  (parsed.None? ==> r == ErrorReply(500, PARSE_FAILED))
                  && (parsed == Some(JNull) ==> r == ErrorReply(500, ANALYZE_FAILED))
                  && (parsed.Some? && parsed.value != JNull && !HasFields(parsed.value, PROVENANCE_FIELDS)
                      ==> r == ErrorReply(500, INVALID_STRUCTURE))
                  && (parsed.Some? && parsed.value != JNull && HasFields(parsed.value, PROVENANCE_FIELDS)
                      ==> r == Reply(200, parsed.value)))
  {
  }

  /** The gateway is consulted only after both guards: with a missing image or
      a missing key, two different models and parsers give the same reply. */
  lemma GuardsPrecedeModelCall(body: Option<Json>, apiKeyConfigured: bool,
                               g1: Json -> Completion, g2: Json -> Completion,
                               p1: string -> Option<Json>, p2: string -> Option<Json>)
    requires !Destructurable(body) || !Truthy(Image(body)) || !apiKeyConfigured
    ensures Analyze(body, apiKeyConfigured, g1, p1) == Analyze(body, apiKeyConfigured, g2, p2)
  {
  }

  /** A model that wraps its JSON in a ```json fence gets the same reply as one
      that answers with the bare JSON. */
  lemma AnalyzeIgnoresFence(body: Option<Json>, apiKeyConfigured: bool, json: string,
                            fenced: Json -> Completion, bare: Json -> Completion, parse: string -> Option<Json>)
    requires NoBacktick(json) && IsTrimmed(json) && json != ""
    requires Destructurable(body) && Truthy(Image(body))
    requires fenced(Image(body).value) == Answered(Some(Fenced(json)))
    requires bare(Image(body).value) == Answered(Some(json))
    ensures Analyze(body, apiKeyConfigured, fenced, parse) == Analyze(body, apiKeyConfigured, bare, parse)
  {
    CompleteIgnoresFence(json, parse, PROVENANCE_FIELDS, ANALYZE_FAILED);
  }

  /** A 200 reply is an object holding `title`, `summary`, `timeline` and
      `components`, each truthy: what the page reads as a provenance result. */
  lemma OkReplyHasProvenanceFields(body: Option<Json>, apiKeyConfigured: bool, gateway: Json -> Completion,
                                   parse: string -> Option<Json>)
    ensures var r := Analyze(body, apiKeyConfigured, gateway, parse);
            r.status == 200 ==>
              r.body.JObject? && forall i :: 0 <= i < |PROVENANCE_FIELDS| ==>
                PROVENANCE_FIELDS[i] in r.body.fields && Truthy(Some(r.body.fields[PROVENANCE_FIELDS[i]]))
  {
    var r := Analyze(body, apiKeyConfigured, gateway, parse);
    if r.status == 200 {
      HasFieldsIsObjectWithKeys(r.body, PROVENANCE_FIELDS);
    }
  }
}

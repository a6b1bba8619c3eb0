/** The component-expansion handler (src/app/api/expand/route.ts): the same
    guard chain as the analysis handler, a plain-text user message naming the
    component and its object, and the two fields of a component detail. */
module ExpandRoute {
  import opened Wrappers
  import opened Json
  import opened Fences
  import opened Routes

  const MISSING_INPUT: string := "Component name and object title are required"
  const EXPAND_FAILED: string := "Failed to expand component history"
  const DETAIL_FIELDS: seq<string> := ["name", "history"]

  const MESSAGE_HEAD: string := "Provide a detailed history of \""
  const MESSAGE_MIDDLE: string := "\" as a component/material used in \""
  const MESSAGE_TAIL: string := "\"."

  /** The user turn sent to the model. */
  function UserMessage(componentName: string, objectTitle: string): (m: string)
    ensures |m| == |MESSAGE_HEAD| + |componentName| + |MESSAGE_MIDDLE| + |objectTitle| + |MESSAGE_TAIL|
  {
    MESSAGE_HEAD + componentName + MESSAGE_MIDDLE + objectTitle + MESSAGE_TAIL
  }

  predicate NoQuote(s: string)
  {
    forall i :: 0 <= i < |s| ==> s[i] != '"'
  }

  /** The message determines the request: two component names without a
      double quote that give the same message are the same name, with the
      same object title. */
  lemma UserMessageDeterminesRequest(name1: string, title1: string, name2: string, title2: string)
    requires NoQuote(name1) && NoQuote(name2)
    requires UserMessage(name1, title1) == UserMessage(name2, title2)
    ensures name1 == name2 && title1 == title2
  {
    var m := UserMessage(name1, title1);
    var h := |MESSAGE_HEAD|;
    forall n, t | n == name1 || n == name2
      ensures UserMessage(n, t)[h + |n|] == '"'
      ensures UserMessage(n, t)[h..h + |n|] == n
    {
      assert UserMessage(n, t) == (MESSAGE_HEAD + n) + (MESSAGE_MIDDLE + t + MESSAGE_TAIL);
    }
    assert |name1| == |name2|;
    assert name1 == name2;
    var k := h + |name1| + |MESSAGE_MIDDLE|;
    assert |title1| == |title2|;
    assert m == (MESSAGE_HEAD + name1 + MESSAGE_MIDDLE) + title1 + MESSAGE_TAIL;
    assert m[k..k + |title1|] == title1;
    assert UserMessage(name2, title2) == (MESSAGE_HEAD + name2 + MESSAGE_MIDDLE) + title2 + MESSAGE_TAIL;
    assert m[k..k + |title2|] == title2;
  }

  /** Both `componentName` and `objectTitle` are truthy. */
  predicate HasInputs(body: Option<Json>)
    requires Destructurable(body)
  {
    Truthy(Prop(body.value, "componentName")) && Truthy(Prop(body.value, "objectTitle"))
  }

  /** The message built from the request's two values, converted as a
      template literal converts them. */
  function RequestMessage(body: Option<Json>, numberText: real -> string): string
    requires Destructurable(body) && HasInputs(body)
  {
    UserMessage(Text(Prop(body.value, "componentName").value, numberText),
                Text(Prop(body.value, "objectTitle").value, numberText))
  }

  /** `POST /api/expand`. `gateway` is the model call on the user message;
      `numberText` is the engine's rendering of a number in a template
      literal. */
  function Expand(body: Option<Json>, apiKeyConfigured: bool, gateway: string -> Completion,
                  parse: string -> Option<Json>, numberText: real -> string): (r: Reply)
    ensures !Destructurable(body) ==> r == ErrorReply(500, EXPAND_FAILED)
    ensures r.status == 400 <==> Destructurable(body) && !HasInputs(body)
    ensures r.status == 400 ==> r == ErrorReply(400, MISSING_INPUT)
    ensures Destructurable(body) && HasInputs(body) && !apiKeyConfigured ==> r == ErrorReply(500, NO_KEY)
    ensures r.status == 200 ==>
              Destructurable(body) && HasInputs(body) && apiKeyConfigured
              && var c := gateway(RequestMessage(body, numberText));
                 c.Answered? && c.content.Some? && Some(r.body) == parse(Clean(c.content.value))
                 && r.body != JNull && HasFields(r.body, DETAIL_FIELDS)
  {
    if !Destructurable(body) then ErrorReply(500, EXPAND_FAILED)
    else if !HasInputs(body) then ErrorReply(400, MISSING_INPUT)
    else if !apiKeyConfigured then ErrorReply(500, NO_KEY)
    else Complete(gateway(RequestMessage(body, numberText)), parse, DETAIL_FIELDS, EXPAND_FAILED)
  }

  /** For string inputs, the model is asked exactly about those strings. */
  lemma ExpandAsksAboutStrings(componentName: string, objectTitle: string, numberText: real -> string)
    requires componentName != "" && objectTitle != ""
    ensures var body := Some(JObject(map["componentName" := JString(componentName), "objectTitle" := JString(objectTitle)]));
            Destructurable(body) && HasInputs(body)
            && RequestMessage(body, numberText) == UserMessage(componentName, objectTitle)
  {
  }

  /** Once the guards pass, the reply is decided by the completion alone, with
      the same messages as the analysis handler and its own catch-all. */
  lemma ExpandAfterGuards(body: Option<Json>, gateway: string -> Completion,
                          parse: string -> Option<Json>, numberText: real -> string)
    requires Destructurable(body) && HasInputs(body)
    ensures var c := gateway(RequestMessage(body, numberText));
            var r := Expand(body, true, gateway, parse, numberText);
            (c.Threw? ==> r == ErrorReply(500, EXPAND_FAILED))
            && (c.Answered? && (c.content.None? || c.content.value == "") ==> r == ErrorReply(500, NO_RESPONSE))
            && (c.Answered? && c.content.Some? && c.content.value != "" ==>
                  var parsed := parse(Clean(c.content.value));
                  (parsed.None? ==> r == ErrorReply(500, PARSE_FAILED))
                  && (parsed == Some(JNull) ==> r == ErrorReply(500, EXPAND_FAILED))
                  && (parsed.Some? && parsed.value != JNull && !HasFields(parsed.value, DETAIL_FIELDS)
                      ==> r == ErrorReply(500, INVALID_STRUCTURE))
                  && (parsed.Some? && parsed.value != JNull && HasFields(parsed.value, DETAIL_FIELDS)
                      ==> r == Reply(200, parsed.value)))
  {
  }

  /** A model that wraps its JSON in a ```json fence gets the same reply as one
      that answers with the bare JSON. */
  lemma ExpandIgnoresFence(body: Option<Json>, apiKeyConfigured: bool, json: string,
                           fenced: string -> Completion, bare: string -> Completion,
                           parse: string -> Option<Json>, numberText: real -> string)
    requires NoBacktick(json) && IsTrimmed(json) && json != ""
    requires Destructurable(body) && HasInputs(body)
    requires fenced(RequestMessage(body, numberText)) == Answered(Some(Fenced(json)))
    requires bare(RequestMessage(body, numberText)) == Answered(Some(json))
    ensures Expand(body, apiKeyConfigured, fenced, parse, numberText)
         == Expand(body, apiKeyConfigured, bare, parse, numberText)
  {
    CompleteIgnoresFence(json, parse, DETAIL_FIELDS, EXPAND_FAILED);
  }

  /** A 200 reply is an object holding a truthy `name` and `history`: what
      the tree reads the expanded history from. */
  lemma OkReplyHasDetailFields(body: Option<Json>, apiKeyConfigured: bool, gateway: string -> Completion,
                               parse: string -> Option<Json>, numberText: real -> string)
    ensures var r := Expand(body, apiKeyConfigured, gateway, parse, numberText);
            r.status == 200 ==>
              r.body.JObject? && "name" in r.body.fields && "history" in r.body.fields
              && Truthy(Some(r.body.fields["name"])) && Truthy(Some(r.body.fields["history"]))
  {
    var r := Expand(body, apiKeyConfigured, gateway, parse, numberText);
    if r.status == 200 {
      HasFieldsIsObjectWithKeys(r.body, DETAIL_FIELDS);
      assert DETAIL_FIELDS[0] == "name" && DETAIL_FIELDS[1] == "history";
    }
  }
}

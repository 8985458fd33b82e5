/**
 * The AI problem route: the model's free-text reply is searched for a JSON object
 * with a greedy pattern, the object is parsed and its shape checked, the problem is
 * stored, and the response echoes the validated fields with the stored session's id.
 * The model call, the JSON parser and the database insert are inputs.
 */
module ProblemGeneration {
  import opened Wrappers

  /** A parsed JSON value. */
  datatype Json = JNull | JBool(b: bool) | JNumber(n: real) | JString(s: string)
                | JArray(items: seq<Json>) | JObject(fields: map<string, Json>)

  // ---------------------------------------------------------------------------
  // Locating the JSON object: `text.match(/\{[\s\S]*\}/)`

  /** The first index of c in s. */
  function FirstIndex(s: string, c: char): (r: Option<nat>)
    ensures r.Some? ==> r.value < |s| && s[r.value] == c
    ensures forall k :: 0 <= k < |s| && s[k] == c ==> r.Some? && r.value <= k
  {
    if s == [] then None
    else if s[0] == c then Some(0)
    else
      var rest := FirstIndex(s[1..], c);
      assert forall k :: 1 <= k < |s| ==> s[k] == s[1..][k - 1];
      if rest.Some? then Some(rest.value + 1) else None
  }

  /** The last index of c in s. */
  function LastIndex(s: string, c: char): (r: Option<nat>)
    ensures r.Some? ==> r.value < |s| && s[r.value] == c
    ensures forall k :: 0 <= k < |s| && s[k] == c ==> r.Some? && k <= r.value
  {
    if s == [] then None
    else if s[|s| - 1] == c then Some(|s| - 1)
    else
      var rest := LastIndex(s[..|s| - 1], c);
      assert forall k :: 0 <= k < |s| - 1 ==> s[k] == s[..|s| - 1][k];
      rest
  }

  /** text[i..j+1] matches the pattern: a `{` at i and a `}` at j after it. */
  predicate BraceMatch(text: string, i: int, j: int) {
    0 <= i < j < |text| && text[i] == '{' && text[j] == '}'
  }

  /**
   * The match a JavaScript regular expression reports: the leftmost start, and
   * from there the longest match, since `[\s\S]*` is greedy.
   */
  ghost predicate ReportedMatch(text: string, i: int, j: int) {
    && BraceMatch(text, i, j)
    && forall i', j' :: BraceMatch(text, i', j') ==> i <= i' && (i' == i ==> j' <= j)
  }

  /**
   * `jsonMatch[0]`: the slice from the first `{` to the last `}`, when some `}`
   * follows some `{`; no match otherwise.
   */
  function JsonSpan(text: string): (span: Option<string>)
    ensures span.Some? <==> exists i, j :: BraceMatch(text, i, j)
    ensures span.Some? ==> exists i, j :: ReportedMatch(text, i, j) && span.value == text[i..j + 1]
    ensures span.Some? ==> |span.value| >= 2 && span.value[0] == '{' && span.value[|span.value| - 1] == '}'
  {
    var first := FirstIndex(text, '{');
    var last := LastIndex(text, '}');
    if first.Some? && last.Some? && first.value < last.value then
      assert BraceMatch(text, first.value, last.value);
      assert ReportedMatch(text, first.value, last.value);
      Some(text[first.value..last.value + 1])
    else
      assert forall i, j :: !BraceMatch(text, i, j);
      None
  }

  /**
   * A reply that is a JSON object wrapped in chatter without braces yields exactly
   * that object's text.
   */
  lemma SpanFindsWrappedObject(before: string, obj: string, after: string)
    requires |obj| >= 2 && obj[0] == '{' && obj[|obj| - 1] == '}'
    requires '{' !in before && '}' !in after
    ensures JsonSpan(before + obj + after) == Some(obj)
  {
    var text := before + obj + after;
    var i, j := |before|, |before| + |obj| - 1;
    assert text[i] == '{' && text[j] == '}';
    assert forall k :: 0 <= k < |before| ==> text[k] == before[k];
    assert forall k :: j < k < |text| ==> text[k] == after[k - |before| - |obj|];
    assert FirstIndex(text, '{') == Some(i);
    assert LastIndex(text, '}') == Some(j);
    assert text[i..j + 1] == obj;
  }

  // ---------------------------------------------------------------------------
  // Checking the parsed object

  function Field(obj: map<string, Json>, name: string): Option<Json> {
    if name in obj then Some(obj[name]) else None
  }

  /** JavaScript truthiness of a field, an absent field being `undefined`. */
  function Truthy(v: Option<Json>): (truthy: bool)
    // absent and null values are falsy
    ensures truthy ==> v.Some? && !v.value.JNull?
    // a string is truthy exactly when it is not empty, and a number when it is not zero
    ensures v.Some? && v.value.JString? ==> (truthy <==> v.value.s != "")
    ensures v.Some? && v.value.JNumber? ==> (truthy <==> v.value.n != 0.0)
  {
    match v
    case None => false
    case Some(JNull) => false
    case Some(JBool(b)) => b
    case Some(JNumber(n)) => n != 0.0
    case Some(JString(s)) => s != ""
    case Some(JArray(_)) => true
    case Some(JObject(_)) => true
  }

  /**
   * The structure check: `problem_text` is truthy and `final_answer` is a number.
   * Its negation is the rejection condition in the route.
   */
  function IsProblemShape(obj: map<string, Json>): (valid: bool)
    ensures valid ==> "problem_text" in obj && "final_answer" in obj && obj["final_answer"].JNumber?
    // an empty problem text is rejected
    ensures "problem_text" in obj && obj["problem_text"] == JString("") ==> !valid
  {
    Truthy(Field(obj, "problem_text")) && Field(obj, "final_answer").Some? && Field(obj, "final_answer").value.JNumber?
  }

  // ---------------------------------------------------------------------------
  // The route

  /** What the model call produced: its reply text, or the error it threw. */
  datatype ModelReply = ReplyText(text: string) | ModelFailed(message: string)

  /** What inserting the session row produced: the stored row's id, or an error. */
  datatype InsertResult = Inserted(id: Json) | InsertFailed(message: string)

  datatype GenerateResponse = Generated(problemText: Json, finalAnswer: real, sessionId: Json)
                            | GenerateFailed(error: string)

  function Status(r: GenerateResponse): int {
    if r.Generated? then 200 else 500
  }

  const ParseFailure := "Failed to parse AI response"
  const InvalidStructure := "Invalid problem data structure"
  const SaveFailure := "Failed to save problem to database"

  /**
   * `POST`. `parse` is `JSON.parse` on the located slice; a text that starts with
   * `{` and ends with `}` can only parse to an object, so it yields the object's
   * fields or nothing. `insert` stores the problem text and answer.
   */
  function HandleGenerate(reply: ModelReply, parse: string -> Option<map<string, Json>>,
                          insert: (Json, real) -> InsertResult): (r: GenerateResponse)
    // the model's own error surfaces with its message
    ensures reply.ModelFailed? ==> r == GenerateFailed(reply.message)
    // no brace pair, or a slice that does not parse, is one and the same failure
    ensures reply.ReplyText? && (JsonSpan(reply.text).None? || parse(JsonSpan(reply.text).value).None?) ==>
              r == GenerateFailed(ParseFailure)
    // a parsed object of the wrong shape is rejected before anything is stored
    ensures reply.ReplyText? && JsonSpan(reply.text).Some? && parse(JsonSpan(reply.text).value).Some?
              && !IsProblemShape(parse(JsonSpan(reply.text).value).value) ==>
              r == GenerateFailed(InvalidStructure)
    // success echoes exactly the validated fields and the id of the row they were stored in
    ensures r.Generated? ==>
              && reply.ReplyText? && JsonSpan(reply.text).Some?
              && var parsed := parse(JsonSpan(reply.text).value);
              && parsed.Some? && IsProblemShape(parsed.value)
              && r.problemText == Field(parsed.value, "problem_text").value
              && JNumber(r.finalAnswer) == Field(parsed.value, "final_answer").value
              && insert(r.problemText, r.finalAnswer) == Inserted(r.sessionId)
    // a valid reply is stored, and served exactly when the insert succeeds
    ensures reply.ReplyText? && JsonSpan(reply.text).Some? && parse(JsonSpan(reply.text).value).Some?
              && IsProblemShape(parse(JsonSpan(reply.text).value).value) ==>
              var p := parse(JsonSpan(reply.text).value).value;
              var t := Field(p, "problem_text").value;
              var a := Field(p, "final_answer").value.n;
              r == match insert(t, a)
                   case Inserted(id) => Generated(t, a, id)
                   case InsertFailed(_) => GenerateFailed(SaveFailure)
    ensures r.GenerateFailed? <==> Status(r) == 500
  {
    match reply
    case ModelFailed(message) => GenerateFailed(message)
    case ReplyText(text) =>
      var span := JsonSpan(text);
      if span.None? then GenerateFailed(ParseFailure)
      else
        var parsed := parse(span.value);
        if parsed.None? then GenerateFailed(ParseFailure)
        else
          var problemData := parsed.value;
          if !IsProblemShape(problemData) then GenerateFailed(InvalidStructure)
          else
            var problemText := Field(problemData, "problem_text").value;
            var finalAnswer := Field(problemData, "final_answer").value.n;
            match insert(problemText, finalAnswer)
            case InsertFailed(_) => GenerateFailed(SaveFailure)
            case Inserted(id) => Generated(problemText, finalAnswer, id)
  }

  /**
   * A failed insert of this reply's text and answer fails the request even though
   * the reply was valid.
   */
  lemma InsertFailureFailsRequest(text: string, parse: string -> Option<map<string, Json>>,
                                  insert: (Json, real) -> InsertResult)
    requires JsonSpan(text).Some? && parse(JsonSpan(text).value).Some?
    requires IsProblemShape(parse(JsonSpan(text).value).value)
    requires var p := parse(JsonSpan(text).value).value;
      insert(Field(p, "problem_text").value, Field(p, "final_answer").value.n).InsertFailed?
    ensures HandleGenerate(ReplyText(text), parse, insert) == GenerateFailed(SaveFailure)
  {
  }

  /**
   * Only a valid reply reaches the database: for any other reply the answer is the
   * same whatever the insert would have done.
   */
  lemma InvalidReplyIsNotStored(reply: ModelReply, parse: string -> Option<map<string, Json>>,
                                insert: (Json, real) -> InsertResult, other: (Json, real) -> InsertResult)
    requires !(reply.ReplyText? && JsonSpan(reply.text).Some? && parse(JsonSpan(reply.text).value).Some?
               && IsProblemShape(parse(JsonSpan(reply.text).value).value))
    ensures HandleGenerate(reply, parse, insert) == HandleGenerate(reply, parse, other)
    ensures HandleGenerate(reply, parse, insert).GenerateFailed?
  {
  }
}

/**
  * What the item service's answer to a lookup comes to: the JSON value the
  * body decodes to, the ways the lookup can fail, and how the scanner
  * sorts an answer into "item found", "no data" and "failure".
  */
module LookupResponse {
  import opened Wrappers
  import opened JsNumber

  /** A decoded JSON value (numbers are kept to integers). */
  datatype Json =
    | JNull
    | JBool(b: bool)
    | JNumber(n: int)
    | JString(s: string)
    | JArray(items: seq<Json>)
    | JObject(members: seq<(string, Json)>)

  /** The body of a response as `response.json()` reads it. */
  datatype Body = Parsed(value: Json) | Malformed(reason: string)

  /** How a `fetch` of the lookup URL ends: either the service answers with
      a status, the body as text (what `response.text()` gives) and the body
      as JSON, or the request itself fails and `fetch` rejects. */
  datatype FetchOutcome =
    | Responded(status: int, text: string, body: Body)
    | NetworkFailure(reason: string)

  /** What the scanner makes of an outcome. */
  datatype Lookup = Found(item: Json) | NoData | Failed(message: string)

  /** `response.ok`: the status is in the range 200 to 299. */
  predicate IsOk(status: int) {
    200 <= status <= 299
  }

  /** The message of the error thrown for a status that is not ok. */
  function StatusError(status: int, text: string): string {
    "Error: " + NumberToString(status) + " " + text
  }

  /** A non-ok status throws with the status and the body text; a body that
      is not JSON and a failed request throw with their own messages; a JSON
      array with at least one element is found; any other JSON is no data. */
  function Classify(outcome: FetchOutcome): Lookup {
    match outcome
    case NetworkFailure(reason) => Failed(reason)
    case Responded(status, text, body) =>
      if !IsOk(status) then Failed(StatusError(status, text))
      else match body
        case Malformed(reason) => Failed(reason)
        case Parsed(value) =>
          if value.JArray? && |value.items| > 0 then Found(value.items[0]) else NoData
  }

  /** The answer a lookup is found in: an ok status and a non-empty JSON
      array. */
  predicate HoldsItems(outcome: FetchOutcome) {
    outcome.Responded? && IsOk(outcome.status) && outcome.body.Parsed? &&
    outcome.body.value.JArray? && |outcome.body.value.items| > 0
  }

  /** The answer a lookup finds nothing in: an ok status and JSON that is
      an empty array or no array at all. */
  predicate HoldsNoItems(outcome: FetchOutcome) {
    outcome.Responded? && IsOk(outcome.status) && outcome.body.Parsed? &&
    !(outcome.body.value.JArray? && |outcome.body.value.items| > 0)
  }

  /** A lookup fails exactly when the request fails, the status is not ok
      or the body is not JSON, with the message of the error thrown; it finds exactly the first element of a
      non-empty array; and every other answer is "no data". */
  lemma ClassifyCases(outcome: FetchOutcome)
    ensures Classify(outcome).Found? <==> HoldsItems(outcome)
    ensures Classify(outcome).Found? ==> Classify(outcome).item == outcome.body.value.items[0]
    ensures Classify(outcome) == NoData <==> HoldsNoItems(outcome)
    ensures Classify(outcome).Failed? <==>
      outcome.NetworkFailure? || !IsOk(outcome.status) || outcome.body.Malformed?
    ensures outcome.NetworkFailure? ==> Classify(outcome) == Failed(outcome.reason)
    ensures outcome.Responded? && IsOk(outcome.status) && outcome.body.Malformed? ==>
      Classify(outcome) == Failed(outcome.body.reason)
  {
  }

  /** The failure message of a non-ok answer starts with `Error: ` followed
      by the status, which parseInt reads back from it. */
  lemma StatusInMessage(status: int, text: string, body: Body)
    requires !IsOk(status)
    ensures Classify(Responded(status, text, body)) == Failed(StatusError(status, text))
    ensures StatusError(status, text)[..7] == "Error: "
    ensures ParseInt(StatusError(status, text)[7..]) == Some(status)
  {
    var prefix, n, rest := "Error: ", NumberToString(status), " " + text;
    assert StatusError(status, text) == prefix + n + rest;
    assert |prefix| == 7;
    assert (prefix + n + rest)[..7] == prefix;
    assert (prefix + n + rest)[7..] == [] + n + rest;
    assert rest[0] == ' ';
    ParseIntOfNumberToString([], status, rest);
  }
}

/** The preprocessing that both controllers' `accept_invitation` apply to the
    submitted invitation before handing it to the agent: strip a string,
    add missing outer braces in one narrow case, decode it as JSON, insist on
    a dict. The two copies of this chain are identical line for line. */
module Invitations {
  import opened PyValues
  import opened Http

  /** The request field `invitation: str | Dict[str, Any]`. */
  datatype InvitationInput = Text(text: string) | Object(fields: Dict<Json>)

  /** Needs outer braces: does not start with `{` but starts like the body of
      an invitation object (`"@type"` or `"@id"`). */
  predicate MissingBraces(t: string) {
    !StartsWith(t, "{") && (StartsWith(t, "\"@type\"") || StartsWith(t, "\"@id\""))
  }

  /** The brace repair applied to the stripped text. */
  function RepairBraces(t: string): string {
    if MissingBraces(t) then "{" + t + "}" else t
  }

  /** The repair changes the text exactly when braces are missing, and then
      only by wrapping it in one pair of braces. */
  lemma RepairChangesOnlyMissingBraces(t: string)
    ensures RepairBraces(t) != t <==> MissingBraces(t)
    ensures MissingBraces(t) ==> RepairBraces(t) == "{" + t + "}"
    ensures !MissingBraces(t) ==> RepairBraces(t) == t
  {
    if MissingBraces(t) {
      assert |RepairBraces(t)| == |t| + 2;
    }
  }

  /** A repaired text starts with `{`, so a second repair changes nothing. */
  lemma RepairIdempotent(t: string)
    ensures RepairBraces(RepairBraces(t)) == RepairBraces(t)
  {
    if MissingBraces(t) {
      assert RepairBraces(t)[..1] == "{";
    }
  }

  /** How `json.loads` can fail: with a `JSONDecodeError`, which the handler
      catches and reports itself, or with another exception (a
      `RecursionError` on deeply nested text, say), which only the handler's
      generic `except` catches. */
  datatype DecodeFailure = JsonDecodeError(message: string) | OtherDecodeFailure(message: string)

  function ParseErrorDetail(message: string): string {
    "Failed to parse invitation JSON: " + message + ". Please ensure the JSON is valid."
  }

  function NotDictDetail(v: Json): string {
    "Invalid invitation format: expected dict, got " + TypeName(v)
  }

  /** The submitted invitation after string cleanup, repair, JSON decoding
      (`parse` stands for `json.loads`) and the dict check. */
  function PrepareInvitation(input: InvitationInput, parse: string -> Result<Json, DecodeFailure>): Result<Dict<Json>, Exc> {
    match input
    case Object(fields) => Success(fields)
    case Text(text) =>
      match parse(RepairBraces(Strip(text)))
      case Failure(JsonDecodeError(message)) => Failure(HttpExc(400, ParseErrorDetail(message)))
      case Failure(OtherDecodeFailure(message)) => Failure(Other(message))
      case Success(v) =>
        if v.JObject? then Success(v.fields) else Failure(HttpExc(400, NotDictDetail(v)))
  }

  /** A string is stripped before anything else happens to it: the text
      matters only through its stripped form. */
  lemma PrepareSeesStrippedText(text: string, parse: string -> Result<Json, DecodeFailure>)
    ensures PrepareInvitation(Text(text), parse) == PrepareInvitation(Text(Strip(text)), parse)
  {
    StripIdempotent(text);
  }

  /** Text padded with whitespace is handled as the unpadded text. */
  lemma PrepareIgnoresPadding(p: string, text: string, q: string, parse: string -> Result<Json, DecodeFailure>)
    requires AllSpace(p) && AllSpace(q)
    ensures PrepareInvitation(Text(p + text + q), parse) == PrepareInvitation(Text(text), parse)
  {
    StripIgnoresPadding(p, text, q);
  }

  /** A dict is taken as it is: no string step, no decoding. */
  lemma PrepareKeepsDict(fields: Dict<Json>, parse: string -> Result<Json, DecodeFailure>)
    ensures PrepareInvitation(Object(fields), parse) == Success(fields)
  {
  }

  /** The outcomes for a string: the decoded dict, a 400 carrying the decoder's
      message, the decoder's other exception left to the generic handler, or
      a 400 naming the type that was decoded instead of a dict. */
  lemma PrepareTextOutcomes(text: string, parse: string -> Result<Json, DecodeFailure>)
    ensures var decoded := parse(RepairBraces(Strip(text)));
      && (decoded.Failure? && decoded.error.JsonDecodeError? ==>
            PrepareInvitation(Text(text), parse) == Failure(HttpExc(400, ParseErrorDetail(decoded.error.message))))
      && (decoded.Failure? && decoded.error.OtherDecodeFailure? ==>
            PrepareInvitation(Text(text), parse) == Failure(Other(decoded.error.message)))
      && (decoded.Success? && !decoded.value.JObject? ==>
            PrepareInvitation(Text(text), parse) == Failure(HttpExc(400, NotDictDetail(decoded.value))))
      && (decoded.Success? && decoded.value.JObject? ==>
            PrepareInvitation(Text(text), parse) == Success(decoded.value.fields))
  {
  }

  /** Every failure the preprocessing classifies itself is an HTTP 400; the
      only other failure is a decoder exception other than `JSONDecodeError`,
      passed on unchanged. */
  lemma PrepareFailsWith400(input: InvitationInput, parse: string -> Result<Json, DecodeFailure>)
    ensures var prepared := PrepareInvitation(input, parse);
      && (prepared.Failure? && prepared.error.HttpExc? ==> prepared.error.status == 400)
      && (prepared.Failure? && prepared.error.Other? ==>
            input.Text? && parse(RepairBraces(Strip(input.text))) == Failure(OtherDecodeFailure(prepared.error.message)))
  {
  }
}

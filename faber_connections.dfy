/** The Faber controller's connection routes: accepting an out-of-band
    invitation and removing a connection. `ready` says whether
    `get_client()` finds the agent client set up. */
module FaberConnections {
  import opened PyValues
  import opened Http
  import opened AdminApi
  import opened Invitations

  const AcceptFailedPrefix: string := "Failed to accept invitation: "

  function ModelErrorDetail(message: string): string {
    "Invalid invitation format: " + message
  }

  /** The success body `{"ok": true, "connection_id": ...}`. */
  function AcceptedBody(connectionId: Option<string>): Json {
    JObject([("ok", JBool(true)), ("connection_id", Nullable(connectionId))])
  }

  /** `POST /connections/accept`. `parse` stands for `json.loads`, `fromDict`
      for `InvitationMessage.from_dict`, `receive` for the agent's
      `out_of_band.receive_invitation`, which answers with the record's
      connection id (or none). */
  function AcceptInvitation(
    input: InvitationInput,
    ready: bool,
    parse: string -> Result<Json, DecodeFailure>,
    fromDict: Dict<Json> -> Outcome<InvitationMessage>,
    receive: InvitationMessage -> Outcome<Option<string>>): Handled
  {
    if !ready then Handled(Catch(Other(ClientNotInitialized), 400, AcceptFailedPrefix), [])
    else
      match PrepareInvitation(input, parse)
      case Failure(e) => Handled(Catch(e, 400, AcceptFailedPrefix), [])
      case Success(fields) =>
        match fromDict(fields)
        case Raised(m) => Handled(Catch(HttpExc(400, ModelErrorDetail(m)), 400, AcceptFailedPrefix), [])
        case Done(msg) =>
          match receive(msg)
          case Raised(m) => Handled(Catch(Other(m), 400, AcceptFailedPrefix), [ReceiveInvitation(msg)])
          case Done(connectionId) => Handled(Ok(AcceptedBody(connectionId)), [ReceiveInvitation(msg)])
  }

  /** A string invitation is stripped before any other step. */
  lemma AcceptSeesStrippedText(
    text: string, ready: bool, parse: string -> Result<Json, DecodeFailure>,
    fromDict: Dict<Json> -> Outcome<InvitationMessage>, receive: InvitationMessage -> Outcome<Option<string>>)
    ensures AcceptInvitation(Text(text), ready, parse, fromDict, receive)
         == AcceptInvitation(Text(Strip(text)), ready, parse, fromDict, receive)
  {
    PrepareSeesStrippedText(text, parse);
  }

  /** A dict invitation skips the string steps: the JSON decoder is never consulted. */
  lemma AcceptDictIgnoresDecoder(
    fields: Dict<Json>, ready: bool, parse1: string -> Result<Json, DecodeFailure>, parse2: string -> Result<Json, DecodeFailure>,
    fromDict: Dict<Json> -> Outcome<InvitationMessage>, receive: InvitationMessage -> Outcome<Option<string>>)
    ensures AcceptInvitation(Object(fields), ready, parse1, fromDict, receive)
         == AcceptInvitation(Object(fields), ready, parse2, fromDict, receive)
  {
  }

  /** Undecodable text gives 400 with the decoder's message; a decoder
      exception other than `JSONDecodeError` gives 400 with the generic
      prefix; either way the agent is never called. */
  lemma AcceptParseFailure(
    text: string, parse: string -> Result<Json, DecodeFailure>,
    fromDict: Dict<Json> -> Outcome<InvitationMessage>, receive: InvitationMessage -> Outcome<Option<string>>)
    requires parse(RepairBraces(Strip(text))).Failure?
    ensures var error := parse(RepairBraces(Strip(text))).error;
      var h := AcceptInvitation(Text(text), true, parse, fromDict, receive);
      && (error.JsonDecodeError? ==> h == Handled(HttpError(400, ParseErrorDetail(error.message)), []))
      && (error.OtherDecodeFailure? ==> h == Handled(HttpError(400, AcceptFailedPrefix + error.message), []))
  {
  }

  /** Text that decodes to something other than a dict gives 400 "expected
      dict", and the agent is never called. */
  lemma AcceptRejectsNonDict(
    text: string, parse: string -> Result<Json, DecodeFailure>,
    fromDict: Dict<Json> -> Outcome<InvitationMessage>, receive: InvitationMessage -> Outcome<Option<string>>)
    requires parse(RepairBraces(Strip(text))).Success? && !parse(RepairBraces(Strip(text))).value.JObject?
    ensures AcceptInvitation(Text(text), true, parse, fromDict, receive)
         == Handled(HttpError(400, NotDictDetail(parse(RepairBraces(Strip(text))).value)), [])
  {
  }

  /** A dict that the invitation model refuses gives 400, and the agent is never called. */
  lemma AcceptModelFailure(
    input: InvitationInput, parse: string -> Result<Json, DecodeFailure>,
    fromDict: Dict<Json> -> Outcome<InvitationMessage>, receive: InvitationMessage -> Outcome<Option<string>>)
    requires PrepareInvitation(input, parse).Success?
    requires fromDict(PrepareInvitation(input, parse).value).Raised?
    ensures AcceptInvitation(input, true, parse, fromDict, receive)
         == Handled(HttpError(400, ModelErrorDetail(fromDict(PrepareInvitation(input, parse).value).message)), [])
  {
  }

  /** The handler succeeds exactly when the client is ready, preprocessing and
      model conversion succeed and the agent accepts; it then answers
      `{ok: true, connection_id}` with the agent's connection id, after exactly
      one `receive_invitation` call carrying the converted message. */
  lemma AcceptSuccess(
    input: InvitationInput, ready: bool, parse: string -> Result<Json, DecodeFailure>,
    fromDict: Dict<Json> -> Outcome<InvitationMessage>, receive: InvitationMessage -> Outcome<Option<string>>)
    ensures var h := AcceptInvitation(input, ready, parse, fromDict, receive);
      h.response.Ok? <==>
        && ready
        && PrepareInvitation(input, parse).Success?
        && fromDict(PrepareInvitation(input, parse).value).Done?
        && receive(fromDict(PrepareInvitation(input, parse).value).value).Done?
    ensures var h := AcceptInvitation(input, ready, parse, fromDict, receive);
      h.response.Ok? ==>
        var msg := fromDict(PrepareInvitation(input, parse).value).value;
        h == Handled(Ok(AcceptedBody(receive(msg).value)), [ReceiveInvitation(msg)])
  {
  }

  /** Every error reply is a 400; a failure the preprocessing classified
      keeps its status and detail; the failures not classified by the handler
      itself (the agent's refusal, an unready client, an unexpected decoder
      exception) carry the "Failed to accept invitation" prefix; the agent is called at most
      once, and only with the converted message. */
  lemma AcceptFailureClassification(
    input: InvitationInput, ready: bool, parse: string -> Result<Json, DecodeFailure>,
    fromDict: Dict<Json> -> Outcome<InvitationMessage>, receive: InvitationMessage -> Outcome<Option<string>>)
    ensures var h := AcceptInvitation(input, ready, parse, fromDict, receive);
      && (h.response.HttpError? ==> h.response.status == 400)
      && |h.calls| <= 1
      && (h.calls != [] ==>
            ready && PrepareInvitation(input, parse).Success? &&
            fromDict(PrepareInvitation(input, parse).value).Done? &&
            h.calls == [ReceiveInvitation(fromDict(PrepareInvitation(input, parse).value).value)])
      && (!ready ==> h == Handled(HttpError(400, AcceptFailedPrefix + ClientNotInitialized), []))
      && (ready && PrepareInvitation(input, parse).Failure? && PrepareInvitation(input, parse).error.HttpExc? ==>
            h == Handled(HttpError(PrepareInvitation(input, parse).error.status,
                                   PrepareInvitation(input, parse).error.detail), []))
      && (ready && PrepareInvitation(input, parse).Failure? && PrepareInvitation(input, parse).error.Other? ==>
            h == Handled(HttpError(400, AcceptFailedPrefix + PrepareInvitation(input, parse).error.message), []))
      && (h.calls != [] && h.response.HttpError? ==>
            h.response.detail == AcceptFailedPrefix + receive(h.calls[0].invitation).message)
  {
    PrepareFailsWith400(input, parse);
  }

  /** `DELETE /connections/{connection_id}`: `delete` stands for the agent's
      `connection.delete_connection`. */
  function RemoveConnection(connectionId: string, ready: bool, delete: string -> Outcome<()>): Handled {
    if !ready then Handled(Catch(Other(ClientNotInitialized), 500, ""), [])
    else
      match delete(connectionId)
      case Raised(m) => Handled(Catch(Other(m), 500, ""), [DeleteConnection(connectionId)])
      case Done(_) => Handled(Ok(JObject([("status", JStr("removed"))])), [DeleteConnection(connectionId)])
  }

  /** Removal answers `{"status": "removed"}` exactly when the agent deletes
      the connection, and 500 with the failure's text otherwise. */
  lemma RemoveOutcome(connectionId: string, ready: bool, delete: string -> Outcome<()>)
    ensures var h := RemoveConnection(connectionId, ready, delete);
      && (h.response.Ok? <==> ready && delete(connectionId).Done?)
      && (h.response.Ok? ==> h.response.body == JObject([("status", JStr("removed"))]))
      && (h.response.HttpError? ==> h.response.status == 500)
      && (ready && delete(connectionId).Raised? ==> h.response.detail == delete(connectionId).message)
      && h.calls == if ready then [DeleteConnection(connectionId)] else []
  {
  }
}

/** The Acme controller's connection routes. The invitation pipeline is the
    same as Faber's without the (empty) fallback branch on the agent's
    record; removal calls the agent once, without Faber's inner re-raise. */
module AcmeConnections {
  import opened PyValues
  import opened Http
  import opened AdminApi
  import opened Invitations
  import FaberConnections

  const AcceptFailedPrefix: string := "Failed to accept invitation: "

  /** `POST /connections/accept`, with the same foreign calls as Faber's copy. */
  function AcceptInvitation(
    input: InvitationInput,
    ready: bool,
    parse: string -> Result<Json, DecodeFailure>,
    fromDict: Dict<Json> -> Outcome<InvitationMessage>,
    receive: InvitationMessage -> Outcome<Option<string>>): Handled
  {
    if !ready then Handled(Catch(Other(ClientNotInitialized), 400, AcceptFailedPrefix), [])
    else
      match PrepareInvitation(input, parse)
      case Failure(e) => Handled(Catch(e, 400, AcceptFailedPrefix), [])
      case Success(fields) =>
        match fromDict(fields)
        case Raised(m) => Handled(HttpError(400, "Invalid invitation format: " + m), [])
        case Done(msg) =>
          var call := ReceiveInvitation(msg);
          match receive(msg)
          case Raised(m) => Handled(HttpError(400, AcceptFailedPrefix + m), [call])
          case Done(connectionId) =>
            Handled(Ok(JObject([("ok", JBool(true)), ("connection_id", Nullable(connectionId))])), [call])
  }

  /** The Acme handler behaves exactly as the Faber one, on every input and
      every behaviour of the foreign calls. */
  lemma AcceptAgreesWithFaber(
    input: InvitationInput, ready: bool, parse: string -> Result<Json, DecodeFailure>,
    fromDict: Dict<Json> -> Outcome<InvitationMessage>, receive: InvitationMessage -> Outcome<Option<string>>)
    ensures AcceptInvitation(input, ready, parse, fromDict, receive)
         == FaberConnections.AcceptInvitation(input, ready, parse, fromDict, receive)
  {
  }

  /** A string invitation is stripped before any other step. */
  lemma AcceptSeesStrippedText(
    text: string, ready: bool, parse: string -> Result<Json, DecodeFailure>,
    fromDict: Dict<Json> -> Outcome<InvitationMessage>, receive: InvitationMessage -> Outcome<Option<string>>)
    ensures AcceptInvitation(Text(text), ready, parse, fromDict, receive)
         == AcceptInvitation(Text(Strip(text)), ready, parse, fromDict, receive)
  {
    AcceptAgreesWithFaber(Text(text), ready, parse, fromDict, receive);
    AcceptAgreesWithFaber(Text(Strip(text)), ready, parse, fromDict, receive);
    FaberConnections.AcceptSeesStrippedText(text, ready, parse, fromDict, receive);
  }

  /** A dict invitation bypasses the string handling: the decoder is never consulted. */
  lemma AcceptDictIgnoresDecoder(
    fields: Dict<Json>, ready: bool, parse1: string -> Result<Json, DecodeFailure>, parse2: string -> Result<Json, DecodeFailure>,
    fromDict: Dict<Json> -> Outcome<InvitationMessage>, receive: InvitationMessage -> Outcome<Option<string>>)
    ensures AcceptInvitation(Object(fields), ready, parse1, fromDict, receive)
         == AcceptInvitation(Object(fields), ready, parse2, fromDict, receive)
  {
  }

  /** Text that fails to decode, or decodes to a non-dict, or a dict the model
      refuses: 400 and no agent call. A failure the preprocessing classified
      keeps its detail; a decoder exception other than `JSONDecodeError`
      takes the generic prefix. */
  lemma AcceptEarlyRejections(
    input: InvitationInput, parse: string -> Result<Json, DecodeFailure>,
    fromDict: Dict<Json> -> Outcome<InvitationMessage>, receive: InvitationMessage -> Outcome<Option<string>>)
    ensures var h := AcceptInvitation(input, true, parse, fromDict, receive);
      && (PrepareInvitation(input, parse).Failure? && PrepareInvitation(input, parse).error.HttpExc? ==>
            h == Handled(HttpError(400, PrepareInvitation(input, parse).error.detail), []))
      && (PrepareInvitation(input, parse).Failure? && PrepareInvitation(input, parse).error.Other? ==>
            h == Handled(HttpError(400, AcceptFailedPrefix + PrepareInvitation(input, parse).error.message), []))
      && (PrepareInvitation(input, parse).Success? && fromDict(PrepareInvitation(input, parse).value).Raised? ==>
            h == Handled(HttpError(400, "Invalid invitation format: " + fromDict(PrepareInvitation(input, parse).value).message), []))
  {
    PrepareFailsWith400(input, parse);
  }

  /** On success the reply is `{ok: true, connection_id}` with the agent's id
      or null; an agent failure is a 400 with the generic prefix. */
  lemma AcceptAgentOutcome(
    input: InvitationInput, parse: string -> Result<Json, DecodeFailure>,
    fromDict: Dict<Json> -> Outcome<InvitationMessage>, receive: InvitationMessage -> Outcome<Option<string>>)
    requires PrepareInvitation(input, parse).Success? && fromDict(PrepareInvitation(input, parse).value).Done?
    ensures var msg := fromDict(PrepareInvitation(input, parse).value).value;
      var h := AcceptInvitation(input, true, parse, fromDict, receive);
      && h.calls == [ReceiveInvitation(msg)]
      && (receive(msg).Done? ==>
            h.response == Ok(JObject([("ok", JBool(true)), ("connection_id", Nullable(receive(msg).value))])))
      && (receive(msg).Raised? ==> h.response == HttpError(400, AcceptFailedPrefix + receive(msg).message))
  {
  }

  /** `DELETE /connections/{connection_id}`. */
  function RemoveConnection(connectionId: string, ready: bool, delete: string -> Outcome<()>): Handled {
    if !ready then Handled(HttpError(500, ClientNotInitialized), [])
    else
      match delete(connectionId)
      case Raised(m) => Handled(HttpError(500, m), [DeleteConnection(connectionId)])
      case Done(_) => Handled(Ok(JObject([("status", JStr("removed"))])), [DeleteConnection(connectionId)])
  }

  /** `{"status": "removed"}` on success, 500 on any failure; same as Faber's. */
  lemma RemoveOutcome(connectionId: string, ready: bool, delete: string -> Outcome<()>)
    ensures var h := RemoveConnection(connectionId, ready, delete);
      && (h.response.Ok? <==> ready && delete(connectionId).Done?)
      && (h.response.Ok? ==> h.response.body == JObject([("status", JStr("removed"))]))
      && (h.response.HttpError? ==> h.response.status == 500)
      && h == FaberConnections.RemoveConnection(connectionId, ready, delete)
  {
  }
}

/** The requests the controllers send to the agent's admin API through
    `AcaPyClient`, and the parts of its replies that the controllers read.
    Which requests a handler sent is part of what it did: every handler below
    returns its response together with that list. */
module AdminApi {
  import opened PyValues
  import opened Http

  /** An `InvitationMessage` model, as `InvitationMessage.from_dict` returns
      it. The model leaves that conversion open, so nothing here relates the
      message to the dict it came from; `source` only keeps values apart. */
  datatype InvitationMessage = InvitationMessage(source: Dict<Json>)

  // schemas and credential definitions

  datatype SchemaSendRequest = SchemaSendRequest(schemaName: string, schemaVersion: string, attributes: seq<string>)

  /** The reply to a schema publication: `sent.schema_id`, either part possibly missing. */
  datatype SchemaSendResult = SchemaSendResult(sent: Option<SchemaSent>)
  datatype SchemaSent = SchemaSent(schemaId: Option<string>)

  datatype CredDefSendRequest = CredDefSendRequest(schemaId: string, tag: string, supportRevocation: bool)

  /** The reply to a credential-definition publication: `sent.credential_definition_id`. */
  datatype CredDefSendResult = CredDefSendResult(sent: Option<CredDefSent>)
  datatype CredDefSent = CredDefSent(credentialDefinitionId: Option<string>)

  // issue-credential 2.0

  datatype CredAttrSpec = CredAttrSpec(name: string, value: string)
  datatype CredPreview = CredPreview(previewType: string, attributes: seq<CredAttrSpec>)
  datatype IndyCredFilter = IndyCredFilter(credDefId: string)
  datatype CredFilter = CredFilter(indy: IndyCredFilter)
  datatype CredOfferRequest = CredOfferRequest(connectionId: string, filter: CredFilter, preview: CredPreview, comment: Option<string>)

  /** A credential-exchange record: its indy part, when it has one, with the
      revocation ids it may carry. */
  datatype CredExRecord = CredExRecord(indy: Option<IndyCredExRecord>)
  datatype IndyCredExRecord = IndyCredExRecord(revRegId: Option<string>, credRevId: Option<string>)

  datatype RevokeRequest = RevokeRequest(revRegId: string, credRevId: string, publish: bool)

  // present-proof 2.0

  datatype AttrSpec = AttrSpec(name: Json, restrictions: Json)
  datatype PredSpec = PredSpec(name: Json, pType: Json, pValue: Json, restrictions: Json)
  datatype IndyProofRequest = IndyProofRequest(
    name: Json,
    version: Json,
    requestedAttributes: Dict<AttrSpec>,
    requestedPredicates: Dict<PredSpec>)
  datatype PresSendRequest = PresSendRequest(connectionId: string, indy: IndyProofRequest, comment: string)

  /** One call on the agent's admin API. */
  datatype Request =
    | ReceiveInvitation(invitation: InvitationMessage)
    | DeleteConnection(connId: string)
    | GetSchema(schemaId: string)
    | PublishSchema(schema: SchemaSendRequest)
    | PublishCredDef(credDef: CredDefSendRequest)
    | SendOfferFree(offer: CredOfferRequest)
    | GetCredExRecord(credExId: string)
    | RevokeCredential(revoke: RevokeRequest)
    | SendPresentationRequest(presentation: PresSendRequest)

  /** What a handler did: its reply, and the admin-API calls it made, in order. */
  datatype Handled = Handled(response: Response, calls: seq<Request>)
}

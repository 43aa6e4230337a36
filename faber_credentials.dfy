/** The Faber controller's credential routes: sending a credential offer and
    revoking an issued credential. */
module FaberCredentials {
  import opened PyValues
  import opened Http
  import opened AdminApi

  /** The fixed issue-credential 2.0 credential-preview message type. */
  const PreviewType: string := "https://didcomm.org/issue-credential/2.0/credential-preview"

  /** How long an offer may take before the handler gives up, in seconds. */
  const SendCredentialTimeoutSec: nat := 600

  const TimeoutDetail: string :=
    "Send credential timed out after 600s. Check ACA-Py and connection state."

  datatype CredentialAttribute = CredentialAttribute(name: string, value: string)

  /** `SendCredentialRequest`: `proposalType` is the proposal's own `@type`
      and `filter` the optional request filter, given as the cred_def_id it names. */
  datatype SendCredentialRequest = SendCredentialRequest(
    connectionId: string,
    credDefId: string,
    proposalType: string,
    attributes: seq<CredentialAttribute>,
    comment: Option<string>,
    filter: Option<string>)

  // ---------------------------------------------------------------------------
  // POST /credentials/send

  /** The list comprehension over the proposal's attributes: one attribute
      spec per attribute, in the same order, with the same name and value. */
  function AttributeSpecs(attributes: seq<CredentialAttribute>): (specs: seq<CredAttrSpec>)
    ensures |specs| == |attributes|
    ensures forall i :: 0 <= i < |attributes| ==>
      specs[i].name == attributes[i].name && specs[i].value == attributes[i].value
  {
    if attributes == [] then []
    else [CredAttrSpec(attributes[0].name, attributes[0].value)] + AttributeSpecs(attributes[1..])
  }

  /** The offer body sent to the agent. */
  function BuildOffer(req: SendCredentialRequest): CredOfferRequest {
    CredOfferRequest(
      req.connectionId,
      CredFilter(IndyCredFilter(req.credDefId)),
      CredPreview(PreviewType, AttributeSpecs(req.attributes)),
      req.comment)
  }

  /** The offer is built from the request's own fields: the filter always
      from `cred_def_id`, the preview type always the fixed URI; the optional
      filter and the proposal's declared type play no part. */
  lemma OfferIgnoresFilterAndProposalType(req: SendCredentialRequest, filter: Option<string>, proposalType: string)
    ensures BuildOffer(req.(filter := filter, proposalType := proposalType)) == BuildOffer(req)
    ensures BuildOffer(req).filter == CredFilter(IndyCredFilter(req.credDefId))
    ensures BuildOffer(req).preview.previewType == PreviewType
    ensures BuildOffer(req).connectionId == req.connectionId && BuildOffer(req).comment == req.comment
  {
  }

  /** Reading the offer's attribute specs back as attributes gives the proposal's list. */
  lemma OfferAttributesRoundTrip(req: SendCredentialRequest)
    ensures var specs := BuildOffer(req).preview.attributes;
      seq(|specs|, i requires 0 <= i < |specs| => CredentialAttribute(specs[i].name, specs[i].value)) == req.attributes
  {
  }

  /** Sending the offer. `sendOffer` stands for `issue_credential_v2_0.send_offer_free`
      under `asyncio.wait_for` with the 600 s bound, answered by the record's
      `to_dict()`; `Expired` is any `TimeoutError` out of that, from the
      deadline or from the call itself. */
  function SendCredential(req: SendCredentialRequest, ready: bool, sendOffer: CredOfferRequest -> Deadline<Json>): Handled {
    if !ready then Handled(HttpError(400, ClientNotInitialized), [])
    else
      var offer := BuildOffer(req);
      match sendOffer(offer)
      case Expired => Handled(HttpError(504, TimeoutDetail), [SendOfferFree(offer)])
      case InTime(Raised(m)) => Handled(HttpError(400, m), [SendOfferFree(offer)])
      case InTime(Done(record)) => Handled(Ok(record), [SendOfferFree(offer)])
  }

  /** A timeout is a 504, any other failure a 400; the offer is sent once,
      as built, and its record is the reply. */
  lemma SendCredentialStatuses(req: SendCredentialRequest, ready: bool, sendOffer: CredOfferRequest -> Deadline<Json>)
    ensures var h := SendCredential(req, ready, sendOffer);
      && (h.calls == if ready then [SendOfferFree(BuildOffer(req))] else [])
      && (h.response.HttpError? && h.response.status == 504 <==> ready && sendOffer(BuildOffer(req)).Expired?)
      && (h.response.HttpError? ==> h.response.status in {400, 504})
      && (h.response.Ok? <==> ready && sendOffer(BuildOffer(req)).InTime? && sendOffer(BuildOffer(req)).outcome.Done?)
      && (h.response.Ok? ==> h.response.body == sendOffer(BuildOffer(req)).outcome.value)
      && (ready && sendOffer(BuildOffer(req)).InTime? && sendOffer(BuildOffer(req)).outcome.Raised? ==>
            h.response == HttpError(400, sendOffer(BuildOffer(req)).outcome.message))
  {
  }

  // ---------------------------------------------------------------------------
  // POST /credentials/revoke

  /** `RevokeCredentialRequest`; `publish` is absent when the request leaves it out. */
  datatype RevokeCredentialRequest = RevokeCredentialRequest(
    credExId: string,
    revRegId: Option<string>,
    credRevId: Option<string>,
    publish: Option<bool>)

  function Publish(req: RevokeCredentialRequest): bool {
    match req.publish
    case Some(b) => b
    case None => true
  }

  const NoRevocationInfoDetail: string :=
    "Credential does not support revocation or revocation info not available"

  /** Both ids supplied by the request (non-empty). */
  predicate BothIdsSupplied(req: RevokeCredentialRequest) {
    Truthy(req.revRegId) && Truthy(req.credRevId)
  }

  /** The revocation ids the handler revokes with, or the exception that
      ends it, and the calls made to find them. `getRecord` stands for
      `issue_credential_v2_0.get_record`. A record without an indy part
      leaves the ids unassigned, so the next use of `rev_reg_id` raises. */
  function ResolveIds(req: RevokeCredentialRequest, getRecord: string -> Outcome<CredExRecord>): (Result<(string, string), Exc>, seq<Request>) {
    if BothIdsSupplied(req) then (Success((req.revRegId.value, req.credRevId.value)), [])
    else
      var call := GetCredExRecord(req.credExId);
      match getRecord(req.credExId)
      case Raised(m) => (Failure(Other(m)), [call])
      case Done(record) =>
        match record.indy
        case None => (Failure(Other(Describe(UnboundLocalError("rev_reg_id")))), [call])
        case Some(indy) =>
          var revRegId := Or(req.revRegId, indy.revRegId);
          var credRevId := Or(req.credRevId, indy.credRevId);
          if !Truthy(revRegId) || !Truthy(credRevId) then (Failure(HttpExc(400, NoRevocationInfoDetail)), [call])
          else (Success((revRegId.value, credRevId.value)), [call])
  }

  /** With both ids in the request they are used as given and the exchange
      record is not fetched. */
  lemma SuppliedIdsSkipRecord(req: RevokeCredentialRequest, getRecord: string -> Outcome<CredExRecord>)
    requires BothIdsSupplied(req)
    ensures ResolveIds(req, getRecord) == (Success((req.revRegId.value, req.credRevId.value)), [])
  {
  }

  /** Otherwise the record is fetched once; each id the request supplies
      overrides the record's, field by field; an id still missing afterwards
      is a 400; a record with no indy part ends in the generic failure. */
  lemma RecordIdsFillGaps(req: RevokeCredentialRequest, getRecord: string -> Outcome<CredExRecord>)
    requires !BothIdsSupplied(req)
    ensures var (ids, calls) := ResolveIds(req, getRecord);
      && calls == [GetCredExRecord(req.credExId)]
      && (getRecord(req.credExId).Done? && getRecord(req.credExId).value.indy.Some? ==>
            var indy := getRecord(req.credExId).value.indy.value;
            && (Truthy(Or(req.revRegId, indy.revRegId)) && Truthy(Or(req.credRevId, indy.credRevId)) <==> ids.Success?)
            && (ids.Success? ==>
                  && ids.value.0 == (if Truthy(req.revRegId) then req.revRegId.value else indy.revRegId.value)
                  && ids.value.1 == (if Truthy(req.credRevId) then req.credRevId.value else indy.credRevId.value))
            && (ids.Failure? ==> ids.error == HttpExc(400, NoRevocationInfoDetail)))
      && (getRecord(req.credExId).Done? && getRecord(req.credExId).value.indy.None? ==>
            ids.Failure? && ids.error.Other?)
      && (getRecord(req.credExId).Raised? ==> ids == Failure(Other(getRecord(req.credExId).message)))
  {
  }

  /** Resolved ids are always non-empty. */
  lemma ResolvedIdsPresent(req: RevokeCredentialRequest, getRecord: string -> Outcome<CredExRecord>)
    ensures var (ids, _) := ResolveIds(req, getRecord);
      ids.Success? ==> ids.value.0 != "" && ids.value.1 != ""
  {
  }

  function RevokedBody(result: Option<Json>): Json {
    JObject([("success", JBool(true)), ("result", match result case Some(r) => r case None => JObject([]))])
  }

  /** `revoke_credential`. `revoke` stands for `revocation.revoke_credential`,
      answered by the result's `to_dict()` when it has one. */
  function RevokeCredentialRoute(
    req: RevokeCredentialRequest,
    ready: bool,
    getRecord: string -> Outcome<CredExRecord>,
    revoke: RevokeRequest -> Outcome<Option<Json>>): Handled
  {
    if !ready then Handled(Catch(Other(ClientNotInitialized), 400, ""), [])
    else
      var (ids, lookups) := ResolveIds(req, getRecord);
      match ids
      case Failure(e) => Handled(Catch(e, 400, ""), lookups)
      case Success((revRegId, credRevId)) =>
        var body := RevokeRequest(revRegId, credRevId, Publish(req));
        match revoke(body)
        case Raised(m) => Handled(Catch(Other(m), 400, ""), lookups + [RevokeCredential(body)])
        case Done(result) => Handled(Ok(RevokedBody(result)), lookups + [RevokeCredential(body)])
  }

  /** The revoke request carries the resolved ids and the publish flag
      (default true); success answers `success: true`; every error is a 400;
      nothing is revoked when the ids cannot be resolved. */
  lemma RevokeOutcome(
    req: RevokeCredentialRequest, getRecord: string -> Outcome<CredExRecord>,
    revoke: RevokeRequest -> Outcome<Option<Json>>)
    ensures var h := RevokeCredentialRoute(req, true, getRecord, revoke);
      var (ids, lookups) := ResolveIds(req, getRecord);
      && (h.response.HttpError? ==> h.response.status == 400)
      && (ids.Failure? ==> h.calls == lookups && h.response.HttpError?)
      && (ids.Success? ==>
            var body := RevokeRequest(ids.value.0, ids.value.1, Publish(req));
            && h.calls == lookups + [RevokeCredential(body)]
            && (req.publish.None? ==> body.publish)
            && (revoke(body).Done? <==> h.response.Ok?)
            && (h.response.Ok? ==> h.response.body == RevokedBody(revoke(body).value)))
  {
  }
}

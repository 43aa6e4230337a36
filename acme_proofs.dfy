/** The Acme controller's proof-request route: the front end's
    `presentation_request` is turned, entry by entry, into the indy proof
    request the agent expects, and sent. */
module AcmeProofs {
  import opened PyValues
  import opened Http
  import opened AdminApi

  /** `SendProofRequestPayload` */
  datatype SendProofRequestPayload = SendProofRequestPayload(
    connectionId: string,
    presentationRequest: Dict<Json>,
    comment: Option<string>)

  const DefaultProofName: Json := JStr("Proof Request")
  const DefaultProofVersion: Json := JStr("1.0")
  const DefaultComment: string := "Proof request from Acme"

  // ---------------------------------------------------------------------------
  // one entry of each map

  /** One attribute entry as an attribute spec: its `name` looked up with a
      subscript (so it may raise), its `restrictions` read with a null default. */
  function AttrSpecOf(v: Json): Result<AttrSpec, PyError> {
    match Subscript(v, "name")
    case Failure(e) => Failure(e)
    case Success(name) => Success(AttrSpec(name, GetOr(v.fields, "restrictions", JNull)))
  }

  /** One predicate entry as a predicate spec: `name`, `p_type` and `p_value`
      looked up with subscripts in that order (the first missing one raises),
      `restrictions` read with a null default. */
  function PredSpecOf(v: Json): Result<PredSpec, PyError> {
    var name :- Subscript(v, "name");
    var pType :- Subscript(v, "p_type");
    var pValue :- Subscript(v, "p_value");
    Success(PredSpec(name, pType, pValue, GetOr(v.fields, "restrictions", JNull)))
  }

  /** An attribute entry converts exactly when it is a dict with a `name`;
      the spec copies the name and takes `restrictions`, or null when absent. */
  lemma AttrSpecOfCases(v: Json)
    ensures AttrSpecOf(v).Success? <==> v.JObject? && "name" in Keys(v.fields)
    ensures AttrSpecOf(v).Success? ==>
      AttrSpecOf(v).value == AttrSpec(Get(v.fields, "name").value, GetOr(v.fields, "restrictions", JNull))
    ensures v.JObject? && "name" !in Keys(v.fields) ==> AttrSpecOf(v) == Failure(KeyError("name"))
  {
  }

  /** A predicate entry converts exactly when it is a dict with `name`,
      `p_type` and `p_value`; a dict missing one fails on the first missing
      key in that order. */
  lemma PredSpecOfCases(v: Json)
    ensures PredSpecOf(v).Success? <==>
      v.JObject? && "name" in Keys(v.fields) && "p_type" in Keys(v.fields) && "p_value" in Keys(v.fields)
    ensures PredSpecOf(v).Success? ==>
      PredSpecOf(v).value == PredSpec(Get(v.fields, "name").value, Get(v.fields, "p_type").value,
                                      Get(v.fields, "p_value").value, GetOr(v.fields, "restrictions", JNull))
    ensures v.JObject? && "name" !in Keys(v.fields) ==> PredSpecOf(v) == Failure(KeyError("name"))
    ensures v.JObject? && "name" in Keys(v.fields) && "p_type" !in Keys(v.fields) ==>
      PredSpecOf(v) == Failure(KeyError("p_type"))
    ensures v.JObject? && "name" in Keys(v.fields) && "p_type" in Keys(v.fields) && "p_value" !in Keys(v.fields) ==>
      PredSpecOf(v) == Failure(KeyError("p_value"))
  {
  }

  // ---------------------------------------------------------------------------
  // a whole map

  /** The state after a loop over `entries` that assigns each converted value
      under its key into a dict that starts empty; the first exception ends it. */
  function Collected<T>(entries: Dict<Json>, convert: Json -> Result<T, PyError>): Result<Dict<T>, PyError> {
    if entries == [] then Success([])
    else
      match Collected(entries[..|entries| - 1], convert)
      case Failure(e) => Failure(e)
      case Success(acc) =>
        match convert(entries[|entries| - 1].1)
        case Failure(e) => Failure(e)
        case Success(x) => Success(Assign(acc, entries[|entries| - 1].0, x))
  }

  /** Once a prefix of the loop has failed, the whole loop fails the same way. */
  lemma {:induction false} CollectedFailureSticks<T>(entries: Dict<Json>, n: nat, convert: Json -> Result<T, PyError>)
    requires n <= |entries|
    requires Collected(entries[..n], convert).Failure?
    ensures Collected(entries, convert) == Collected(entries[..n], convert)
  {
    if n < |entries| {
      var m := |entries| - 1;
      assert entries[..m][..n] == entries[..n];
      CollectedFailureSticks(entries[..m], n, convert);
    } else {
      assert entries[..n] == entries;
    }
  }

  /** The loop succeeds exactly when every entry converts. */
  lemma {:induction false} CollectedSucceedsIff<T>(entries: Dict<Json>, convert: Json -> Result<T, PyError>)
    ensures Collected(entries, convert).Success? <==>
      forall i :: 0 <= i < |entries| ==> convert(entries[i].1).Success?
  {
    if entries != [] {
      var m := |entries| - 1;
      CollectedSucceedsIff(entries[..m], convert);
      assert forall i :: 0 <= i < m ==> entries[..m][i] == entries[i];
    }
  }

  /** On a dict (no key twice) the output has exactly the input's keys, in
      the input's order, each with its converted value. */
  lemma {:induction false} CollectedKeepsKeys<T>(entries: Dict<Json>, convert: Json -> Result<T, PyError>)
    requires UniqueKeys(entries)
    requires Collected(entries, convert).Success?
    ensures var out := Collected(entries, convert).value;
      && Keys(out) == Keys(entries)
      && forall i :: 0 <= i < |entries| ==> convert(entries[i].1) == Success(out[i].1)
  {
    if entries != [] {
      var m := |entries| - 1;
      var prefix := entries[..m];
      var (k, v) := entries[m];
      UniqueSplit(entries);
      CollectedKeepsKeys(prefix, convert);
      var acc := Collected(prefix, convert).value;
      AssignNewKey(acc, k, convert(v).value);
      var out := Collected(entries, convert).value;
      assert out == acc + [(k, convert(v).value)];
      assert entries == prefix + [(k, v)];
      KeysOfAppend(acc, k, convert(v).value);
      KeysOfAppend(prefix, k, v);
      forall i | 0 <= i < |entries| ensures convert(entries[i].1) == Success(out[i].1) {
        if i < m { assert prefix[i] == entries[i] && out[i] == acc[i]; }
      }
    }
  }

  /** A dict without its last pair is still a dict, and does not hold the last key. */
  lemma UniqueSplit<V>(d: Dict<V>)
    requires UniqueKeys(d) && d != []
    ensures UniqueKeys(d[..|d| - 1])
    ensures d[|d| - 1].0 !in Keys(d[..|d| - 1])
  {
    var m := |d| - 1;
    forall i | 0 <= i < m ensures Keys(d[..m])[i] != d[m].0 {
      assert Keys(d[..m])[i] == d[i].0;
    }
  }

  /** Appending a pair appends its key. */
  lemma KeysOfAppend<V>(d: Dict<V>, k: string, v: V)
    ensures Keys(d + [(k, v)]) == Keys(d) + [k]
  {
  }

  // ---------------------------------------------------------------------------
  // the request

  /** The request's comment, or the default when it is absent or empty. */
  function CommentOf(p: SendProofRequestPayload): string {
    if Truthy(p.comment) then p.comment.value else DefaultComment
  }

  /** The `indy` section of the presentation request, an empty dict when
      absent; it must be a dict for the lookups that follow. */
  function IndySection(p: SendProofRequestPayload): Result<Dict<Json>, PyError> {
    var indy := GetOr(p.presentationRequest, "indy", JObject([]));
    if indy.JObject? then Success(indy.fields) else Failure(AttributeError(TypeName(indy), "get"))
  }

  /** The entries of one requested map (empty when absent); a value that is
      not a dict has no entries to iterate and raises. */
  function EntriesOf(indy: Dict<Json>, key: string): Result<Dict<Json>, PyError> {
    var m := GetOr(indy, key, JObject([]));
    if m.JObject? then Success(m.fields) else Failure(AttributeError(TypeName(m), "items"))
  }

  /** The request body around the two filled maps. */
  function Assemble(p: SendProofRequestPayload, indy: Dict<Json>, attrs: Dict<AttrSpec>, preds: Dict<PredSpec>): PresSendRequest {
    PresSendRequest(
      p.connectionId,
      IndyProofRequest(GetOr(indy, "name", DefaultProofName), GetOr(indy, "version", DefaultProofVersion), attrs, preds),
      CommentOf(p))
  }

  /** The proof request the handler sends, or the exception that stops it
      before anything is sent. */
  function BuildProofRequest(p: SendProofRequestPayload): Result<PresSendRequest, PyError> {
    var indy :- IndySection(p);
    var attributeEntries :- EntriesOf(indy, "requested_attributes");
    var attrs :- Collected(attributeEntries, AttrSpecOf);
    var predicateEntries :- EntriesOf(indy, "requested_predicates");
    var preds :- Collected(predicateEntries, PredSpecOf);
    Success(Assemble(p, indy, attrs, preds))
  }

  /** A request without an `indy` section asks for nothing: both maps empty,
      name and version defaulted. */
  lemma MissingIndyAsksNothing(p: SendProofRequestPayload)
    requires "indy" !in Keys(p.presentationRequest)
    ensures BuildProofRequest(p) == Success(PresSendRequest(
      p.connectionId, IndyProofRequest(DefaultProofName, DefaultProofVersion, [], []), CommentOf(p)))
  {
  }

  /** A request builds exactly when the `indy` section and both requested
      maps are dicts and every attribute and every predicate entry converts. */
  lemma BuildSucceedsIff(p: SendProofRequestPayload)
    ensures BuildProofRequest(p).Success? <==>
      && IndySection(p).Success?
      && EntriesOf(IndySection(p).value, "requested_attributes").Success?
      && (forall i :: 0 <= i < |EntriesOf(IndySection(p).value, "requested_attributes").value| ==>
            AttrSpecOf(EntriesOf(IndySection(p).value, "requested_attributes").value[i].1).Success?)
      && EntriesOf(IndySection(p).value, "requested_predicates").Success?
      && (forall i :: 0 <= i < |EntriesOf(IndySection(p).value, "requested_predicates").value| ==>
            PredSpecOf(EntriesOf(IndySection(p).value, "requested_predicates").value[i].1).Success?)
  {
    if IndySection(p).Success? {
      var indy := IndySection(p).value;
      if EntriesOf(indy, "requested_attributes").Success? {
        CollectedSucceedsIff(EntriesOf(indy, "requested_attributes").value, AttrSpecOf);
      }
      if EntriesOf(indy, "requested_predicates").Success? {
        CollectedSucceedsIff(EntriesOf(indy, "requested_predicates").value, PredSpecOf);
      }
    }
  }

  /** A successful build is the body assembled around the two collected maps. */
  lemma BuiltFromParts(p: SendProofRequestPayload)
    requires BuildProofRequest(p).Success?
    ensures IndySection(p).Success?
    ensures EntriesOf(IndySection(p).value, "requested_attributes").Success?
    ensures EntriesOf(IndySection(p).value, "requested_predicates").Success?
    ensures Collected(EntriesOf(IndySection(p).value, "requested_attributes").value, AttrSpecOf).Success?
    ensures Collected(EntriesOf(IndySection(p).value, "requested_predicates").value, PredSpecOf).Success?
    ensures BuildProofRequest(p).value == Assemble(p, IndySection(p).value,
      Collected(EntriesOf(IndySection(p).value, "requested_attributes").value, AttrSpecOf).value,
      Collected(EntriesOf(IndySection(p).value, "requested_predicates").value, PredSpecOf).value)
  {
  }

  /** Name and version default to "Proof Request" and "1.0" when the indy
      section lacks them; the comment defaults to "Proof request from Acme"
      when absent or empty. */
  lemma ProofRequestDefaults(p: SendProofRequestPayload)
    requires BuildProofRequest(p).Success?
    ensures var indy := IndySection(p).value;
      var body := BuildProofRequest(p).value;
      && ("name" !in Keys(indy) ==> body.indy.name == JStr("Proof Request"))
      && ("name" in Keys(indy) ==> body.indy.name == Get(indy, "name").value)
      && ("version" !in Keys(indy) ==> body.indy.version == JStr("1.0"))
      && ("version" in Keys(indy) ==> body.indy.version == Get(indy, "version").value)
      && (!Truthy(p.comment) ==> body.comment == "Proof request from Acme")
      && (Truthy(p.comment) ==> body.comment == p.comment.value)
      && body.connectionId == p.connectionId
  {
    BuiltFromParts(p);
  }

  /** With a duplicate-free attribute map, the requested attributes have
      exactly its keys, in order, each copying `name` and taking
      `restrictions` or null. */
  lemma RequestedAttributesKeepKeys(p: SendProofRequestPayload)
    requires BuildProofRequest(p).Success?
    ensures var attributes := EntriesOf(IndySection(p).value, "requested_attributes").value;
      var out := BuildProofRequest(p).value.indy.requestedAttributes;
      UniqueKeys(attributes) ==>
        && Keys(out) == Keys(attributes)
        && forall i :: 0 <= i < |attributes| ==>
             && attributes[i].1.JObject? && "name" in Keys(attributes[i].1.fields)
             && out[i].1 == AttrSpec(Get(attributes[i].1.fields, "name").value,
                                     GetOr(attributes[i].1.fields, "restrictions", JNull))
  {
    BuiltFromParts(p);
    var attributes := EntriesOf(IndySection(p).value, "requested_attributes").value;
    var out := BuildProofRequest(p).value.indy.requestedAttributes;
    assert Collected(attributes, AttrSpecOf) == Success(out);
    if UniqueKeys(attributes) {
      CollectedKeepsKeys(attributes, AttrSpecOf);
      forall i | 0 <= i < |attributes|
        ensures && attributes[i].1.JObject? && "name" in Keys(attributes[i].1.fields)
                && out[i].1 == AttrSpec(Get(attributes[i].1.fields, "name").value,
                                        GetOr(attributes[i].1.fields, "restrictions", JNull))
      {
        AttrSpecOfCases(attributes[i].1);
      }
    }
  }

  /** `spec` is the predicate spec read off the dict entry `v`. */
  predicate PredicateCopied(v: Json, spec: PredSpec) {
    && v.JObject?
    && "name" in Keys(v.fields) && "p_type" in Keys(v.fields) && "p_value" in Keys(v.fields)
    && spec == PredSpec(Get(v.fields, "name").value, Get(v.fields, "p_type").value,
                        Get(v.fields, "p_value").value, GetOr(v.fields, "restrictions", JNull))
  }

  /** With a duplicate-free predicate map, the requested predicates have
      exactly its keys, in order, each copying `name`, `p_type` and `p_value`
      and taking `restrictions` or null. */
  lemma RequestedPredicatesKeepKeys(p: SendProofRequestPayload)
    requires BuildProofRequest(p).Success?
    ensures var predicates := EntriesOf(IndySection(p).value, "requested_predicates").value;
      var out := BuildProofRequest(p).value.indy.requestedPredicates;
      UniqueKeys(predicates) ==>
        && Keys(out) == Keys(predicates)
        && forall i :: 0 <= i < |predicates| ==> PredicateCopied(predicates[i].1, out[i].1)
  {
    BuiltFromParts(p);
    var predicates := EntriesOf(IndySection(p).value, "requested_predicates").value;
    var out := BuildProofRequest(p).value.indy.requestedPredicates;
    assert Collected(predicates, PredSpecOf) == Success(out);
    if UniqueKeys(predicates) {
      CollectedKeepsKeys(predicates, PredSpecOf);
      forall i | 0 <= i < |predicates| ensures PredicateCopied(predicates[i].1, out[i].1) {
        PredSpecOfCases(predicates[i].1);
      }
    }
  }

  /** An attribute entry that cannot be converted (not a dict, or without
      `name`) stops the request before it is built. */
  lemma IncompleteEntryStopsRequest(p: SendProofRequestPayload, i: nat)
    requires IndySection(p).Success?
    requires var attributes := EntriesOf(IndySection(p).value, "requested_attributes");
      attributes.Success? && i < |attributes.value| && AttrSpecOf(attributes.value[i].1).Failure?
    ensures BuildProofRequest(p).Failure?
  {
    CollectedSucceedsIff(EntriesOf(IndySection(p).value, "requested_attributes").value, AttrSpecOf);
  }

  /** A predicate entry that cannot be converted (not a dict, or without
      `name`, `p_type` or `p_value`) stops the request before it is built. */
  lemma IncompletePredicateStopsRequest(p: SendProofRequestPayload, i: nat)
    requires IndySection(p).Success?
    requires var predicates := EntriesOf(IndySection(p).value, "requested_predicates");
      predicates.Success? && i < |predicates.value| && PredSpecOf(predicates.value[i].1).Failure?
    ensures BuildProofRequest(p).Failure?
  {
    CollectedSucceedsIff(EntriesOf(IndySection(p).value, "requested_predicates").value, PredSpecOf);
  }

  // ---------------------------------------------------------------------------
  // the handler

  /** The in-place filling of one requested map: each entry, in order, is
      converted and assigned under its key into a dict that starts empty; the
      first entry that raises ends the loop with that exception. */
  method CollectEntries<T>(entries: Dict<Json>, convert: Json -> Result<T, PyError>)
    returns (r: Result<Dict<T>, PyError>)
    ensures r == Collected(entries, convert)
  {
    var out: Dict<T> := [];
    var i := 0;
    while i < |entries|
      invariant 0 <= i <= |entries|
      invariant Collected(entries[..i], convert) == Success(out)
    {
      assert entries[..i + 1][..i] == entries[..i];
      var converted := convert(entries[i].1);
      if converted.Failure? {
        CollectedFailureSticks(entries, i + 1, convert);
        return Failure(converted.error);
      }
      out := Assign(out, entries[i].0, converted.value);
      i := i + 1;
    }
    assert entries[..i] == entries;
    return Success(out);
  }

  /** `POST /proofs/send-request`. `send` stands for the agent's
      `present_proof_v2_0.send_request_free`, answered by the record's
      `to_dict()`. Both maps are filled in place by loops over the input
      entries (`CollectEntries`); any exception on the way is a 400, and nothing is sent. */
  method SendProofRequest(p: SendProofRequestPayload, ready: bool, send: PresSendRequest -> Outcome<Json>)
    returns (h: Handled)
    ensures !ready ==> h == Handled(HttpError(400, ClientNotInitialized), [])
    ensures ready && BuildProofRequest(p).Failure? ==>
      h == Handled(HttpError(400, Describe(BuildProofRequest(p).error)), [])
    ensures ready && BuildProofRequest(p).Success? ==>
      var body := BuildProofRequest(p).value;
      && h.calls == [SendPresentationRequest(body)]
      && h.response == match send(body) case Done(record) => Ok(record) case Raised(m) => HttpError(400, m)
  {
    if !ready {
      return Handled(HttpError(400, ClientNotInitialized), []);
    }
    var section := IndySection(p);
    if section.Failure? {
      return Handled(HttpError(400, Describe(section.error)), []);
    }
    var indy := section.value;

    var attributes := EntriesOf(indy, "requested_attributes");
    if attributes.Failure? {
      return Handled(HttpError(400, Describe(attributes.error)), []);
    }
    var collectedAttributes := CollectEntries(attributes.value, AttrSpecOf);
    if collectedAttributes.Failure? {
      return Handled(HttpError(400, Describe(collectedAttributes.error)), []);
    }
    var requestedAttributes := collectedAttributes.value;

    var predicates := EntriesOf(indy, "requested_predicates");
    if predicates.Failure? {
      return Handled(HttpError(400, Describe(predicates.error)), []);
    }
    var collectedPredicates := CollectEntries(predicates.value, PredSpecOf);
    if collectedPredicates.Failure? {
      return Handled(HttpError(400, Describe(collectedPredicates.error)), []);
    }
    var requestedPredicates := collectedPredicates.value;

    var body := Assemble(p, indy, requestedAttributes, requestedPredicates);
    var result := send(body);
    match result {
      case Done(record) => h := Handled(Ok(record), [SendPresentationRequest(body)]);
      case Raised(m) => h := Handled(HttpError(400, m), [SendPresentationRequest(body)]);
    }
  }
}

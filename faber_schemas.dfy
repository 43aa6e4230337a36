/** The Faber controller's schema routes: a read-through cache of schema
    lookups, and the two-step publication of a schema followed by a
    credential definition for it. */
module FaberSchemas {
  import opened PyValues
  import opened Http
  import opened AdminApi

  // ---------------------------------------------------------------------------
  // GET /schemas/{schema_id}: the read-through cache

  /** The cache holds, per stripped schema id, the dict the agent returned. */
  type SchemaCacheMap = map<string, Dict<Json>>

  /** One `get_schema`: what it did and the cache it left behind. */
  datatype LookupStep = LookupStep(handled: Handled, cache: SchemaCacheMap)

  function NotFoundDetail(schemaId: string, message: string): string {
    "Schema not found: " + schemaId + ". Error: " + message
  }

  /** The debug logging after a fetch calls `data['schema'].keys()` when the
      key is present, which raises when that value is not a dict. */
  function LoggingFailure(data: Dict<Json>): Option<PyError> {
    match Get(data, "schema")
    case Some(v) => if v.JObject? then None else Some(AttributeError(TypeName(v), "keys"))
    case None => None
  }

  /** `get_schema` on a cache: a hit answers from the cache; a miss fetches
      (`fetch` stands for the agent's `schema.get_schema` followed by
      `to_dict()`) with the id as given, and stores the result under the
      stripped id only when nothing failed. */
  function Lookup(cache: SchemaCacheMap, schemaId: string, ready: bool, fetch: string -> Outcome<Dict<Json>>): LookupStep {
    var key := Strip(schemaId);
    if key in cache then LookupStep(Handled(Ok(JObject(cache[key])), []), cache)
    else if !ready then LookupStep(Handled(HttpError(404, NotFoundDetail(schemaId, ClientNotInitialized)), []), cache)
    else
      match fetch(schemaId)
      case Raised(m) => LookupStep(Handled(HttpError(404, NotFoundDetail(schemaId, m)), [GetSchema(schemaId)]), cache)
      case Done(data) =>
        match LoggingFailure(data)
        case Some(e) => LookupStep(Handled(HttpError(404, NotFoundDetail(schemaId, Describe(e))), [GetSchema(schemaId)]), cache)
        case None => LookupStep(Handled(Ok(JObject(data)), [GetSchema(schemaId)]), cache[key := data])
  }

  /** A hit returns the stored value, leaves the cache as it is and does not
      call the agent, whatever the agent would have answered. */
  lemma LookupHit(cache: SchemaCacheMap, schemaId: string, ready: bool, fetch: string -> Outcome<Dict<Json>>)
    requires Strip(schemaId) in cache
    ensures Lookup(cache, schemaId, ready, fetch) == LookupStep(Handled(Ok(JObject(cache[Strip(schemaId)])), []), cache)
  {
  }

  /** Ids that differ only in surrounding whitespace share one cache entry:
      they have the same key, and a cached entry answers both alike. */
  lemma PaddedIdsShareEntry(cache: SchemaCacheMap, p: string, schemaId: string, q: string, ready: bool, fetch: string -> Outcome<Dict<Json>>)
    requires AllSpace(p) && AllSpace(q)
    ensures Strip(p + schemaId + q) == Strip(schemaId)
    ensures Strip(schemaId) in cache ==>
      Lookup(cache, p + schemaId + q, ready, fetch) == Lookup(cache, schemaId, ready, fetch)
  {
    StripIgnoresPadding(p, schemaId, q);
  }

  /** A successful fetch on a miss answers with the fetched data and maps the
      key to exactly that data; no other key changes. */
  lemma LookupStoresFetched(cache: SchemaCacheMap, schemaId: string, ready: bool, fetch: string -> Outcome<Dict<Json>>)
    requires Strip(schemaId) !in cache
    ensures var step := Lookup(cache, schemaId, ready, fetch);
      step.handled.response.Ok? ==>
        && ready && fetch(schemaId).Done?
        && step.handled == Handled(Ok(JObject(fetch(schemaId).value)), [GetSchema(schemaId)])
        && step.cache == cache[Strip(schemaId) := fetch(schemaId).value]
        && (forall k :: k != Strip(schemaId) ==> (k in step.cache <==> k in cache))
        && (forall k :: k != Strip(schemaId) && k in cache ==> step.cache[k] == cache[k])
  {
  }

  /** A miss answers from the agent exactly when the client is ready, the
      fetch returns and the debug logging does not raise; a miss with a ready
      client always calls the agent once, with the id as given, so an id whose
      earlier lookup failed is fetched again. */
  lemma LookupMissSucceedsIff(cache: SchemaCacheMap, schemaId: string, ready: bool, fetch: string -> Outcome<Dict<Json>>)
    requires Strip(schemaId) !in cache
    ensures Lookup(cache, schemaId, ready, fetch).handled.response.Ok? <==>
      ready && fetch(schemaId).Done? && LoggingFailure(fetch(schemaId).value).None?
    ensures Lookup(cache, schemaId, ready, fetch).handled.calls == if ready then [GetSchema(schemaId)] else []
  {
  }

  /** A failed lookup is a 404 and leaves the cache unchanged, so the next
      lookup of the id fetches again. */
  lemma LookupFailureKeepsCache(cache: SchemaCacheMap, schemaId: string, ready: bool, fetch: string -> Outcome<Dict<Json>>)
    ensures var step := Lookup(cache, schemaId, ready, fetch);
      step.handled.response.HttpError? ==>
        && step.handled.response.status == 404
        && step.cache == cache
        && Strip(schemaId) !in step.cache
  {
  }

  /** The cache only grows: an entry, once stored, is never replaced. */
  lemma LookupKeepsEntries(cache: SchemaCacheMap, schemaId: string, ready: bool, fetch: string -> Outcome<Dict<Json>>)
    ensures var step := Lookup(cache, schemaId, ready, fetch);
      forall k :: k in cache ==> k in step.cache && step.cache[k] == cache[k]
  {
    var key := Strip(schemaId);
    if key !in cache && ready && fetch(schemaId).Done? && LoggingFailure(fetch(schemaId).value).None? {
      var step := Lookup(cache, schemaId, ready, fetch);
      assert step.cache == cache[key := fetch(schemaId).value];
      forall k | k in cache ensures k in step.cache && step.cache[k] == cache[k] {
        assert k != key;
      }
    }
  }

  /** After a successful lookup, every later lookup of an id with the same
      key answers the same value without calling the agent, and leaves the
      cache as it was. */
  lemma RepeatedLookupsAgree(
    cache: SchemaCacheMap, first: string, second: string,
    ready1: bool, fetch1: string -> Outcome<Dict<Json>>,
    ready2: bool, fetch2: string -> Outcome<Dict<Json>>)
    requires Strip(first) == Strip(second)
    requires Lookup(cache, first, ready1, fetch1).handled.response.Ok?
    ensures var step1 := Lookup(cache, first, ready1, fetch1);
      Lookup(step1.cache, second, ready2, fetch2) == LookupStep(Handled(step1.handled.response, []), step1.cache)
  {
  }

  /** The module-level `_schema_cache` dict and the route that reads and fills it. */
  class SchemaCache {
    var entries: SchemaCacheMap

    constructor ()
      ensures entries == map[]
    {
      entries := map[];
    }

    /** `GET /schemas/{schema_id}` */
    method GetSchemaRoute(schemaId: string, ready: bool, fetch: string -> Outcome<Dict<Json>>) returns (h: Handled)
      modifies this
      ensures h == Lookup(old(entries), schemaId, ready, fetch).handled
      ensures entries == Lookup(old(entries), schemaId, ready, fetch).cache
    {
      var key := Strip(schemaId);
      if key in entries {
        h := Handled(Ok(JObject(entries[key])), []);
        return;
      }
      if !ready {
        h := Handled(HttpError(404, NotFoundDetail(schemaId, ClientNotInitialized)), []);
        return;
      }
      var result := fetch(schemaId);
      if result.Raised? {
        h := Handled(HttpError(404, NotFoundDetail(schemaId, result.message)), [GetSchema(schemaId)]);
        return;
      }
      var data := result.value;
      var failure := LoggingFailure(data);
      if failure.Some? {
        h := Handled(HttpError(404, NotFoundDetail(schemaId, Describe(failure.value))), [GetSchema(schemaId)]);
        return;
      }
      entries := entries[key := data];
      h := Handled(Ok(JObject(data)), [GetSchema(schemaId)]);
    }
  }

  /** Two lookups of the same id on one cache: when the first succeeds, the
      second returns the same value and the agent is called at most once. */
  method LookupTwice(cache: SchemaCache, schemaId: string, ready: bool, fetch: string -> Outcome<Dict<Json>>)
    returns (h1: Handled, h2: Handled)
    modifies cache
    ensures h1.response.Ok? ==> h2 == Handled(h1.response, [])
    ensures h1.response.Ok? ==> Strip(schemaId) in cache.entries && h1.response.body == JObject(cache.entries[Strip(schemaId)])
  {
    h1 := cache.GetSchemaRoute(schemaId, ready, fetch);
    h2 := cache.GetSchemaRoute(schemaId, ready, fetch);
  }

  // ---------------------------------------------------------------------------
  // POST /admin/schema

  /** `CreateSchemaRequest`; the fields with defaults are absent when the
      request leaves them out. */
  datatype CreateSchemaRequest = CreateSchemaRequest(
    schemaName: string,
    schemaVersion: Option<string>,
    attributes: seq<string>,
    tag: Option<string>,
    supportRevocation: Option<bool>)

  function SchemaVersion(req: CreateSchemaRequest): string {
    match req.schemaVersion
    case Some(v) => v
    case None => "1.0"
  }

  function SupportRevocation(req: CreateSchemaRequest): bool {
    match req.supportRevocation
    case Some(b) => b
    case None => false
  }

  /** The credential-definition tag: the request's tag unless absent or empty,
      then the schema name. */
  function CredDefTag(req: CreateSchemaRequest): string {
    if Truthy(req.tag) then req.tag.value else req.schemaName
  }

  function SentSchemaId(r: SchemaSendResult): Option<string> {
    if r.sent.Some? then r.sent.value.schemaId else None
  }

  function SentCredDefId(r: CredDefSendResult): Option<string> {
    if r.sent.Some? then r.sent.value.credentialDefinitionId else None
  }

  const NoSchemaIdDetail: string := "Failed to create schema: no schema_id returned"
  const NoCredDefIdDetail: string := "Failed to create credential definition"

  function SchemaRequestOf(req: CreateSchemaRequest): SchemaSendRequest {
    SchemaSendRequest(req.schemaName, SchemaVersion(req), req.attributes)
  }

  function CreatedBody(schemaId: string, credDefId: string, supportRevocation: bool): Json {
    JObject([("schema_id", JStr(schemaId)),
             ("credential_definition_id", JStr(credDefId)),
             ("support_revocation", JBool(supportRevocation))])
  }

  /** `create_schema_and_cred_def`: publish the schema, then a credential
      definition for the schema id it returned. Every failure is a 500: the
      handler's own checks raise 500, and the generic handler maps anything
      else to 500 with the exception's text. */
  function CreateSchemaAndCredDef(
    req: CreateSchemaRequest,
    ready: bool,
    publishSchema: SchemaSendRequest -> Outcome<SchemaSendResult>,
    publishCredDef: CredDefSendRequest -> Outcome<CredDefSendResult>): Handled
  {
    if !ready then Handled(HttpError(500, ClientNotInitialized), [])
    else
      var schemaRequest := SchemaRequestOf(req);
      var first := PublishSchema(schemaRequest);
      match publishSchema(schemaRequest)
      case Raised(m) => Handled(HttpError(500, m), [first])
      case Done(schemaResult) =>
        var schemaId := SentSchemaId(schemaResult);
        if !Truthy(schemaId) then Handled(HttpError(500, NoSchemaIdDetail), [first])
        else
          var credDefRequest := CredDefSendRequest(schemaId.value, CredDefTag(req), SupportRevocation(req));
          var second := PublishCredDef(credDefRequest);
          match publishCredDef(credDefRequest)
          case Raised(m) => Handled(HttpError(500, m), [first, second])
          case Done(credDefResult) =>
            var credDefId := SentCredDefId(credDefResult);
            if !Truthy(credDefId) then Handled(HttpError(500, NoCredDefIdDetail), [first, second])
            else Handled(Ok(CreatedBody(schemaId.value, credDefId.value, SupportRevocation(req))), [first, second])
  }

  /** The credential definition the route requests is tagged with the
      request's tag when that is a non-empty string, and with the schema name
      when the tag is absent or empty. */
  lemma TagDefaultsToSchemaName(
    req: CreateSchemaRequest, ready: bool,
    publishSchema: SchemaSendRequest -> Outcome<SchemaSendResult>,
    publishCredDef: CredDefSendRequest -> Outcome<CredDefSendResult>)
    ensures var h := CreateSchemaAndCredDef(req, ready, publishSchema, publishCredDef);
      |h.calls| == 2 ==>
        && h.calls[1].PublishCredDef?
        && (req.tag.Some? && req.tag.value != "" ==> h.calls[1].credDef.tag == req.tag.value)
        && (req.tag.None? || req.tag == Some("") ==> h.calls[1].credDef.tag == req.schemaName)
  {
  }

  /** The schema is always published first, with the request's name,
      version (default "1.0") and attributes. */
  lemma SchemaPublishedFirst(
    req: CreateSchemaRequest,
    publishSchema: SchemaSendRequest -> Outcome<SchemaSendResult>,
    publishCredDef: CredDefSendRequest -> Outcome<CredDefSendResult>)
    ensures var h := CreateSchemaAndCredDef(req, true, publishSchema, publishCredDef);
      && 1 <= |h.calls| <= 2
      && h.calls[0] == PublishSchema(SchemaSendRequest(req.schemaName, SchemaVersion(req), req.attributes))
      && (req.schemaVersion.None? ==> h.calls[0].schema.schemaVersion == "1.0")
  {
  }

  /** A publication that returns no schema id gives 500, and no credential
      definition is requested. */
  lemma MissingSchemaIdAborts(
    req: CreateSchemaRequest,
    publishSchema: SchemaSendRequest -> Outcome<SchemaSendResult>,
    publishCredDef: CredDefSendRequest -> Outcome<CredDefSendResult>)
    requires publishSchema(SchemaRequestOf(req)).Done?
    requires !Truthy(SentSchemaId(publishSchema(SchemaRequestOf(req)).value))
    ensures CreateSchemaAndCredDef(req, true, publishSchema, publishCredDef)
         == Handled(HttpError(500, NoSchemaIdDetail), [PublishSchema(SchemaRequestOf(req))])
  {
  }

  /** A credential definition is requested only after a schema id came
      back, and then for exactly that schema id, with the defaulted tag and
      the revocation flag (default false). */
  lemma CredDefUsesNewSchemaId(
    req: CreateSchemaRequest, ready: bool,
    publishSchema: SchemaSendRequest -> Outcome<SchemaSendResult>,
    publishCredDef: CredDefSendRequest -> Outcome<CredDefSendResult>)
    ensures var h := CreateSchemaAndCredDef(req, ready, publishSchema, publishCredDef);
      |h.calls| == 2 ==>
        && publishSchema(SchemaRequestOf(req)).Done?
        && var schemaId := SentSchemaId(publishSchema(SchemaRequestOf(req)).value);
           && Truthy(schemaId)
           && h.calls[1] == PublishCredDef(CredDefSendRequest(schemaId.value, CredDefTag(req), SupportRevocation(req)))
           && (req.supportRevocation.None? ==> !h.calls[1].credDef.supportRevocation)
  {
  }

  /** The handler succeeds exactly when both publications return ids, and
      then echoes them with the revocation flag; a missing credential
      definition id gives 500; every error is a 500. */
  lemma CreateOutcome(
    req: CreateSchemaRequest, ready: bool,
    publishSchema: SchemaSendRequest -> Outcome<SchemaSendResult>,
    publishCredDef: CredDefSendRequest -> Outcome<CredDefSendResult>)
    ensures var h := CreateSchemaAndCredDef(req, ready, publishSchema, publishCredDef);
      && (h.response.HttpError? ==> h.response.status == 500)
      && (h.response.Ok? <==>
            && ready
            && publishSchema(SchemaRequestOf(req)).Done?
            && Truthy(SentSchemaId(publishSchema(SchemaRequestOf(req)).value))
            && |h.calls| == 2
            && publishCredDef(h.calls[1].credDef).Done?
            && Truthy(SentCredDefId(publishCredDef(h.calls[1].credDef).value)))
      && (h.response.Ok? ==>
            h.response.body == CreatedBody(
              SentSchemaId(publishSchema(SchemaRequestOf(req)).value).value,
              SentCredDefId(publishCredDef(h.calls[1].credDef).value).value,
              SupportRevocation(req)))
      && (|h.calls| == 2 && publishCredDef(h.calls[1].credDef).Done? &&
          !Truthy(SentCredDefId(publishCredDef(h.calls[1].credDef).value)) ==>
            h.response == HttpError(500, NoCredDefIdDetail))
  {
  }
}

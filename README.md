# Supply-chain controllers: request shaping and decision rules

The Faber (issuer) and Acme (verifier) controllers are FastAPI services in
front of an ACA-Py agent. Most of their routes only forward a request to the
agent. This project models the routes that make decisions of their own and
proves properties of them in Dafny:

- **Accepting an out-of-band invitation.** Both controllers have this route
  (`accept_invitation`). A string invitation is stripped of whitespace. It
  gets outer braces only when it does not start with `{` but does start
  with `"@type"` or `"@id"`. It is then decoded as JSON and must be a dict.
  The dict becomes an `InvitationMessage`, which is handed to the agent.
  Every failure is mapped to an HTTP status.
- **Removing a connection** (`remove_connection`, in both controllers).
- **The schema read-through cache** (`get_schema` over the module-level
  `_schema_cache`). The cache is keyed by the stripped schema id, and only
  fetches that succeed are stored. It is modelled as a class `SchemaCache`
  with a `map` field and a route method. The method is proved equal to a
  pure function `Lookup` on the old cache.
- **Publishing a schema, then a credential definition for it**
  (`create_schema_and_cred_def`). The tag defaults to the schema name, and
  each missing-id check aborts the sequence.
- **Sending a credential offer** (`send_credential`), with its
  timeout/other-error classification, and **revoking a credential**
  (`revoke_credential`). For revocation, the request's ids override the
  exchange record's ids field by field.
- **Assembling a proof request** (`send_proof_request`). Its two loops fill
  the requested-attribute and requested-predicate dicts in place. The model
  is a method with those loops, and its invariant ties the dict built so far
  to the specification function `Collected` on the processed prefix.

Python values are modelled explicitly in the module `PyValues`:

- JSON values are a `Json` datatype.
- A dict is a sequence of key/value pairs in insertion order. `Assign` gives
  `d[k] = v` its Python meaning.
- `str.strip()` uses Python's set of whitespace characters.
- Truthiness and `x or y` on `str | None` are modelled.
- The built-in exceptions that the handlers' own expressions can raise carry
  their `str()` text.

The foreign calls are parameters of the handler functions:

- every ACA-Py agent call;
- `json.loads`, which returns a value or fails with either a `JSONDecodeError` (the handler reports it itself) or another exception (left to its generic `except`);
- `InvitationMessage.from_dict`;
- `asyncio.wait_for`, which appears only as its outcome: the call finished in time, or a `TimeoutError` reached the handler, from the deadline or from the call itself.

Each agent call returns an `Outcome`: `Done(value)` or `Raised(message)`.
Whether `get_client()` finds a client is the boolean `ready`. When it does
not, the RuntimeError text "ACA-Py client not initialized" takes the
handler's generic error path.

Every handler returns `Handled(response, calls)`: the HTTP response
(`Ok(body)` or `HttpError(status, detail)`) and the exact list of requests
sent to the agent. So "the agent is never called" is stated as
`calls == []`.

Module layout:

| file | module | models |
|---|---|---|
| `py_values.dfy` | `PyValues` | Python dicts, strings, `str.strip`, `or`, built-in exceptions |
| `http.dfy` | `Http` | responses, raised exceptions, the common except-chain, agent outcomes |
| `admin_api.dfy` | `AdminApi` | the agent's request/response models used by the routes |
| `invitations.dfy` | `Invitations` | invitation cleanup, brace repair, decoding and dict check |
| `faber_connections.dfy` | `FaberConnections` | Faber's connection routes |
| `acme_connections.dfy` | `AcmeConnections` | Acme's connection routes |
| `faber_schemas.dfy` | `FaberSchemas` | the schema cache and schema/cred-def publication |
| `faber_credentials.dfy` | `FaberCredentials` | credential offers and revocation |
| `acme_proofs.dfy` | `AcmeProofs` | proof-request assembly (imperative) |

## Model

| member | source | states |
|---|---|---|
| PyValues.TrimStartSpec | faber-controller-python/routes/connections.py:136 | the result is a suffix of the input, everything removed is whitespace, and the result does not start with whitespace |
| PyValues.TrimEndSpec | faber-controller-python/routes/connections.py:136 | the result is a prefix of the input, everything removed is whitespace, and the result does not end with whitespace |
| PyValues.StripSpec | faber-controller-python/routes/schemas.py:85 | the result is a slice of the input with only whitespace on both sides, and it neither starts nor ends with whitespace |
| PyValues.StripIgnoresPadding | faber-controller-python/routes/schemas.py:85 | whitespace added on either side does not change the stripped text |
| PyValues.Get | acme-controller-python/routes/proofs.py:94 | a lookup finds a value exactly when the key is among the dict's keys, and the value is the one stored under it |
| PyValues.AssignNewKey | acme-controller-python/routes/proofs.py:99 | assigning to a key the dict does not hold appends the pair at the end |
| PyValues.KeysOfAssign | acme-controller-python/routes/proofs.py:99 | `d[k] = v` adds `k` at the end of the key order when it is new and leaves the key order unchanged otherwise |
| PyValues.Subscript | acme-controller-python/routes/proofs.py:100 | `v[k]` succeeds exactly when `v` is a dict holding `k`, gives the stored value, and a dict missing `k` raises KeyError(k) |
| Invitations.RepairChangesOnlyMissingBraces | faber-controller-python/routes/connections.py:139-143 | the repair changes the text if and only if it does not start with `{` and starts with `"@type"` or `"@id"`, and then only by wrapping it in one pair of braces |
| Invitations.RepairIdempotent | faber-controller-python/routes/connections.py:139-142 | a second repair leaves repaired text unchanged |
| Invitations.PrepareSeesStrippedText | faber-controller-python/routes/connections.py:131-136 | a string invitation is handled exactly as its stripped form |
| Invitations.PrepareIgnoresPadding | acme-controller-python/routes/connections.py:78-83 | a string padded with whitespace on either side is handled as the unpadded string |
| Invitations.PrepareKeepsDict | faber-controller-python/routes/connections.py:128-131 | a dict invitation is taken as it is, without any string step or decoding |
| Invitations.PrepareTextOutcomes | faber-controller-python/routes/connections.py:145-160 | a string yields the decoded dict, a 400 carrying the decoder's message on a `JSONDecodeError`, the decoder's other exception passed on to the generic handler, or a 400 naming the non-dict type decoded |
| Invitations.PrepareFailsWith400 | acme-controller-python/routes/connections.py:92-107 | every failure the preprocessing classifies is an HTTP 400; the only other failure is a decoder exception other than `JSONDecodeError`, passed on unchanged |
| FaberConnections.AcceptSeesStrippedText | faber-controller-python/routes/connections.py:131-136 | the whole handler answers a string exactly as it answers the stripped string |
| FaberConnections.AcceptDictIgnoresDecoder | faber-controller-python/routes/connections.py:128-131 | for a dict invitation the JSON decoder plays no part in the outcome |
| FaberConnections.AcceptParseFailure | faber-controller-python/routes/connections.py:145-194 | a `JSONDecodeError` gives 400 with the decoder's message, any other decoder exception 400 "Failed to accept invitation: ...", and neither calls the agent |
| FaberConnections.AcceptRejectsNonDict | faber-controller-python/routes/connections.py:156-160 | a decoded non-dict gives 400 "expected dict, got <type>", and no agent call |
| FaberConnections.AcceptModelFailure | faber-controller-python/routes/connections.py:163-171 | a dict the invitation model refuses gives 400 "Invalid invitation format: ...", and no agent call |
| FaberConnections.AcceptSuccess | faber-controller-python/routes/connections.py:174-187 | success holds if and only if the client is ready and preprocessing, conversion and the agent all succeed; the body is `{ok: true, connection_id}` with the agent's id or null, after one call carrying the converted message |
| FaberConnections.AcceptFailureClassification | faber-controller-python/routes/connections.py:189-194 | every error is a 400; a preprocessing failure the handler classified keeps its status and detail; the agent is called at most once, only with the converted message; an agent, client or unexpected decoder failure carries the "Failed to accept invitation: " prefix |
| FaberConnections.RemoveOutcome | faber-controller-python/routes/connections.py:208-225 | `{"status": "removed"}` exactly when the client is ready and the deletion succeeds; otherwise 500 with the failure's text; one delete call when ready |
| AcmeConnections.AcceptAgreesWithFaber | acme-controller-python/routes/connections.py:69-136 | the Acme handler gives the same response and calls as the Faber handler on every input and every behaviour of the foreign calls |
| AcmeConnections.AcceptSeesStrippedText | acme-controller-python/routes/connections.py:78-83 | a string invitation is answered exactly as its stripped form |
| AcmeConnections.AcceptDictIgnoresDecoder | acme-controller-python/routes/connections.py:75-78 | for a dict invitation the JSON decoder plays no part in the outcome |
| AcmeConnections.AcceptEarlyRejections | acme-controller-python/routes/connections.py:92-136 | a parse failure, a non-dict or a model failure gives 400 with its own detail and no agent call; an unexpected decoder exception gives 400 with the generic prefix |
| AcmeConnections.AcceptAgentOutcome | acme-controller-python/routes/connections.py:120-136 | one agent call with the converted message; its success gives `{ok: true, connection_id}`, its failure 400 with the generic prefix |
| AcmeConnections.RemoveOutcome | acme-controller-python/routes/connections.py:139-151 | `{"status": "removed"}` exactly when the deletion succeeds, 500 on any failure, and the same as Faber's route |
| FaberSchemas.SchemaCache.constructor | faber-controller-python/routes/schemas.py:31 | the cache starts empty |
| FaberSchemas.LookupHit | faber-controller-python/routes/schemas.py:85-89 | a hit on the stripped id returns the stored value, keeps the cache and calls no agent, whatever the client state |
| FaberSchemas.PaddedIdsShareEntry | faber-controller-python/routes/schemas.py:85 | ids differing only in surrounding whitespace have one key, and a cached entry answers both alike |
| FaberSchemas.LookupStoresFetched | faber-controller-python/routes/schemas.py:91-106 | a successful miss answers the fetched data after one fetch with the raw id, maps the key to exactly that data and changes no other key |
| FaberSchemas.LookupMissSucceedsIff | faber-controller-python/routes/schemas.py:91-109 | on a miss the route answers from the agent if and only if the client is ready, the fetch returns and the debug logging does not raise; a miss with a ready client calls the agent once with the id as given, so a lookup that failed earlier is fetched again |
| FaberSchemas.LookupFailureKeepsCache | faber-controller-python/routes/schemas.py:107-109 | a failed lookup is a 404 and leaves the cache unchanged, the key still absent |
| FaberSchemas.LookupKeepsEntries | faber-controller-python/routes/schemas.py:86-106 | no stored entry is ever removed or replaced |
| FaberSchemas.RepeatedLookupsAgree | faber-controller-python/routes/schemas.py:86-89 | after a successful lookup, a later lookup with the same key returns the same response, makes no call and keeps the cache |
| FaberSchemas.SchemaCache.GetSchemaRoute | faber-controller-python/routes/schemas.py:73-109 | the route's response and the new cache are those of `Lookup` on the old cache |
| FaberSchemas.LookupTwice | faber-controller-python/routes/schemas.py:86-106 | when a first call succeeds, a second call of the same id returns the same response without an agent call, and the value is in the cache |
| FaberSchemas.TagDefaultsToSchemaName | faber-controller-python/routes/schemas.py:158-166 | the credential definition the route requests is tagged with the request's tag when that is non-empty, and with the schema name when the tag is absent or empty |
| FaberSchemas.SchemaPublishedFirst | faber-controller-python/routes/schemas.py:138-144 | the first call always publishes the schema with the request's name, version (default "1.0") and attributes; at most two calls |
| FaberSchemas.MissingSchemaIdAborts | faber-controller-python/routes/schemas.py:146-150 | no schema id back gives 500 "no schema_id returned" and no credential-definition request |
| FaberSchemas.CredDefUsesNewSchemaId | faber-controller-python/routes/schemas.py:152-168 | a credential definition is requested only after a schema id came back, for exactly that id, with the defaulted tag and revocation flag (default false) |
| FaberSchemas.CreateOutcome | faber-controller-python/routes/schemas.py:170-189 | success holds if and only if both publications return ids, and then the body echoes both ids and the revocation flag; every error is a 500 |
| FaberCredentials.AttributeSpecs | faber-controller-python/routes/credentials.py:114-117 | one spec per proposal attribute, in order, with the same name and value |
| FaberCredentials.OfferIgnoresFilterAndProposalType | faber-controller-python/routes/credentials.py:110-130 | the offer's filter always comes from `cred_def_id` and its preview type is the fixed issue-credential 2.0 URI; the optional filter field plays no part |
| FaberCredentials.OfferAttributesRoundTrip | faber-controller-python/routes/credentials.py:114-122 | reading the offer's preview specs back as attributes gives the proposal's attribute list |
| FaberCredentials.SendCredentialStatuses | faber-controller-python/routes/credentials.py:132-152 | one offer call as built; a timeout is 504 (and only a timeout), any other failure 400 with its text, success returns the record |
| FaberCredentials.SuppliedIdsSkipRecord | faber-controller-python/routes/credentials.py:204-220 | with both ids supplied they are used as given and the exchange record is not fetched |
| FaberCredentials.RecordIdsFillGaps | faber-controller-python/routes/credentials.py:204-217 | otherwise one record fetch; each supplied id overrides the record's; resolution succeeds if and only if both ids end up non-empty, else 400; a record without an indy part ends in the generic failure |
| FaberCredentials.ResolvedIdsPresent | faber-controller-python/routes/credentials.py:213-217 | resolved ids are never empty |
| FaberCredentials.RevokeOutcome | faber-controller-python/routes/credentials.py:222-241 | the revoke request carries the resolved ids and the publish flag (default true); it is sent only when the ids resolve; success answers `success: true` with the result; every error is a 400 |
| AcmeProofs.AttrSpecOfCases | acme-controller-python/routes/proofs.py:99-102 | an attribute entry converts if and only if it is a dict with `name`, copying the name and `restrictions` or null; a dict without `name` raises KeyError |
| AcmeProofs.PredSpecOfCases | acme-controller-python/routes/proofs.py:108-113 | a predicate entry converts if and only if it is a dict with `name`, `p_type` and `p_value`; the first missing of those raises KeyError |
| AcmeProofs.CollectedFailureSticks | acme-controller-python/routes/proofs.py:98-102 | once a prefix of the loop has raised, the whole loop raises the same error |
| AcmeProofs.CollectedSucceedsIff | acme-controller-python/routes/proofs.py:98-102 | the loop succeeds if and only if every entry converts |
| AcmeProofs.CollectedKeepsKeys | acme-controller-python/routes/proofs.py:97-113 | on a dict, the output has exactly the input's keys in order, each with its converted value |
| AcmeProofs.MissingIndyAsksNothing | acme-controller-python/routes/proofs.py:94-121 | without an `indy` section both maps are empty and name and version take their defaults |
| AcmeProofs.BuildSucceedsIff | acme-controller-python/routes/proofs.py:94-121 | the request is built if and only if the `indy` section and both requested maps are dicts and every attribute and every predicate entry converts |
| AcmeProofs.ProofRequestDefaults | acme-controller-python/routes/proofs.py:116-130 | name defaults to "Proof Request" and version to "1.0" when absent and are copied when present; the comment defaults to "Proof request from Acme" when absent or empty |
| AcmeProofs.RequestedAttributesKeepKeys | acme-controller-python/routes/proofs.py:97-102 | the requested attributes have exactly the input keys, each copying `name` with `restrictions` or null |
| AcmeProofs.RequestedPredicatesKeepKeys | acme-controller-python/routes/proofs.py:105-113 | the requested predicates have exactly the input keys, each copying `name`, `p_type`, `p_value` with `restrictions` or null |
| AcmeProofs.IncompleteEntryStopsRequest | acme-controller-python/routes/proofs.py:99-140 | an attribute entry that cannot be converted stops the request before it is built |
| AcmeProofs.IncompletePredicateStopsRequest | acme-controller-python/routes/proofs.py:106-140 | a predicate entry that cannot be converted (not a dict, or without `name`, `p_type` or `p_value`) stops the request before it is built |
| AcmeProofs.CollectEntries | acme-controller-python/routes/proofs.py:97-113 | the loop that fills one requested map ends exactly in `Collected` on its entries: the filled dict, or the first entry's exception |
| AcmeProofs.SendProofRequest | acme-controller-python/routes/proofs.py:77-140 | the two loops build exactly `BuildProofRequest`; any exception before sending is a 400 with its text and no call; otherwise one send call with that body, its record or a 400 |

## Left out

- The list endpoints in the core files are left out because they make one agent call and map every error to an empty list: `get_connections` (in both controllers), `get_schemas`, `get_credential_exchanges` and `get_proofs`. So are the other pass-through routes in the core files: `create_invitation`, `verify_proof` and `get_proof_detail`. The controllers' other route files are left out for the same reason.
- The `main.py` and `config.py` files are left out because they are application wiring, environment settings and server start-up. The only part used is the rule that `get_client()` raises a RuntimeError "ACA-Py client not initialized" before the client is set up, which the `ready` parameter models.
- Agent calls, `json.loads` and `InvitationMessage.from_dict` are not modelled: they are library code outside these files. Each is a parameter returning success with a value or failure with the exception's text; for `json.loads` the failure also says whether it was a `JSONDecodeError`.
- `asyncio.wait_for` appears only as its outcome: the offer finished in time, or a `TimeoutError` reached the handler (the 600-second deadline passed, or the call raised `TimeoutError` itself). Clocks and cancellation are not modelled.
- Pydantic validation is not modelled. This covers request parsing, the agent models' field validation (for example `IndyProofReqAttrSpec` checking field types) and the `min_length=1` rule on schema attributes. Field defaults are modelled as optional fields with their default values.
- Logging is left out. The one exception is the debug line after a schema fetch that evaluates `data['schema'].keys()`, because it can raise and so changes the outcome.
- Python 3.11 or later is assumed. The texts of `UnboundLocalError` and of `TypeError: string indices must be integers, not 'str'` are CPython 3.11 wording. Reading an `asyncio.wait_for` deadline as a `TimeoutError` caught by `except asyncio.TimeoutError` also depends on 3.11, where the two classes are one. The source itself needs only 3.10 (the `str | Dict[...]` annotation). Under 3.10 those texts differ, and a built-in `TimeoutError` raised by the call itself would reach the generic `except Exception` branch (400) instead of the 504 branch.
- Floating-point and integer details of JSON numbers are not modelled beyond their type names.
- Concurrent requests sharing `_schema_cache` are not modelled. Each route call is one atomic step on the cache.
- FaberConnections.AcceptInvitation: `receive_invitation`'s record is modelled as its connection id or none. The `attachments` branch does nothing in the source, so it is folded into "none".
- FaberCredentials.RevokeCredentialRoute: the result's `to_dict()` is modelled as an optional JSON value that is present when the result has the method.
- The client-side exchange orchestration (duplicate-action guards, auto-verification, background issuance tracking) is not part of this model: none of these files implements it.

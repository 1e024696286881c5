# BCRA statistics node — Dafny model

This project models the `execute` method of the n8n node `Bcra`
(`nodes/Bcra/Bcra.node.ts`). The node reads monetary time series from the
statistics API of the Banco Central de la República Argentina. For every
input item it resolves the parameters (`idVariable`, `desde`, `hasta`,
`limit`, `offset`) and builds the query string. It then calls the API and
looks up the variable's display name in the catalog (`bcraOptions`). Last, it
normalises the response into output items, each tagged with `pairedItem`, the
index of the input item it came from. An item that throws becomes an
`{error: message}` item under continue-on-fail; otherwise it aborts the run.

The model is purely functional:

- `base.dfy` (`Base`): `Option` (for `undefined`) and `Result` (a value or
  the `message` of a thrown error).
- `json.dfy` (`JsonValue`): parsed JSON values and `Spread`, the fields that
  JavaScript's `{...v}` copies out of a value. For objects these are the own
  fields. For arrays and strings they are the elements under the index keys
  `"0"`, `"1"`, …. For `null`, booleans and numbers there are none.
- `catalog.dfy` (`Catalog`): catalog entries, `Array.prototype.find`, and
  the label with its `'Unknown Variable'` fallback.
- `query.dfy` (`Query`): the per-item parameters, the `split('T')[0]` date
  truncation and the construction of `qs`.
- `normalize.dfy` (`Normalization`): output records, the merge of
  `descripcion`/`idVariable`, and the array-versus-object dispatch on
  `response.results`.
- `batch.dfy` (`Batch`): the body of the `try` block for one item
  (`HandleItem`) and the `catch` decision (`ItemOutput`). `Fold` is the loop
  as a fold over the per-item outcomes, `Run` is the whole call, and
  `Execute` is the imperative loop, proved equal to `Run`.
- `scenarios.dfy` (`Scenarios`): concrete runs (a timestamp truncated to
  its date, the omission rules, an array body, an object body, a transport
  failure under continue-on-fail).

External collaborators are inputs:

- The date parser `new Date(s).toISOString()` is a `DateParser`: a function
  from the raw text to an optional ISO string. `None` stands for the
  `RangeError` "Invalid time value".
- Each item's transport is a `Transport`: a function from the `Request`
  (variable and query string) to the parsed body or the thrown message.
- Parameter resolution by the host is a `Result<Params>` per item.
- `continueOnFail()` is a boolean.

Three behaviours of `execute` that the model keeps as they are:

- When continue-on-fail is off, a failing item throws out of `execute`, so
  the records gathered for earlier items are not returned; `Run` yields only
  the error.
- A `null` body is a failure: reading `response.results` on it throws a
  `TypeError`.
- `idVariable` is not checked to be positive, and `limit` is not checked to
  be at least 1. Only a `limit` of 0 is left out of the query.

## Model

| member | source | states |
|---|---|---|
| `Catalog.FindFrom` | nodes/Bcra/Bcra.node.ts:117 | the result is the position of the first entry whose `value` equals the identifier, and `None` only when no entry carries it |
| `Catalog.Label` | nodes/Bcra/Bcra.node.ts:117-118 | the label is the name of the first entry whose `value` equals the identifier, and `'Unknown Variable'` when none does; the lookup never fails |
| `Catalog.LabelIsMatchingName` | nodes/Bcra/Bcra.node.ts:117-118 | the label is either the sentinel or the name of an entry that carries the identifier |
| `Query.DatePart` | nodes/Bcra/Bcra.node.ts:90 | the sent date is a prefix of the ISO text, contains no `'T'`, and stops at the first `'T'` or at the end |
| `Query.DatePartUnique` | nodes/Bcra/Bcra.node.ts:90 | any prefix with those three properties is the date part, so they characterise `split('T')[0]` completely |
| `Query.DatePartIdempotent` | nodes/Bcra/Bcra.node.ts:90 | truncating an already truncated date leaves it unchanged |
| `Query.DateField` | nodes/Bcra/Bcra.node.ts:89-94 | an empty date is omitted; a date that parses is sent as the date part of its ISO rendering; a date that does not parse fails with "Invalid time value" |
| `Query.BuildQuery` | nodes/Bcra/Bcra.node.ts:87-104 | the query fails exactly when a non-empty date does not parse; `desde`/`hasta` are present iff non-empty and then hold the truncated date; `limit` is present iff non-zero; `offset` is present iff defined, including 0; no other key is ever present |
| `Query.SentDatesAreDates` | nodes/Bcra/Bcra.node.ts:89-94 | every date sent in the query is a string without `'T'` that truncation leaves unchanged |
| `JsonValue.IndexedFieldsContents` | nodes/Bcra/Bcra.node.ts:121-122 | spreading an array or string keeps element `k` under the key `"k"` and adds no other key |
| `Normalization.Merge` | nodes/Bcra/Bcra.node.ts:121-139 | the merged object has the source keys plus `descripcion` and `idVariable`, those two hold the label and identifier whatever the source held, and every other field is unchanged |
| `Normalization.Normalize` | nodes/Bcra/Bcra.node.ts:120-144 | a `null` body fails; an array `results` of length n yields n records whose record k is element k merged; any other body yields one record that is the whole body merged; every record is tagged with the item and carries the label and identifier |
| `Normalization.NormalizeCount` | nodes/Bcra/Bcra.node.ts:120-144 | a non-null body never fails and yields as many records as its `results` array has elements, or exactly one; an empty array yields none |
| `Normalization.NormalizeFields` | nodes/Bcra/Bcra.node.ts:120-144 | field by field, record k has its source's keys plus the two node fields, the node fields override, and all other fields equal the source's |
| `Batch.Sent` | nodes/Bcra/Bcra.node.ts:81-114 | the request is sent exactly when the parameters resolve and both dates are accepted; it carries the item's `idVariable` and exactly the query `BuildQuery` built, so every per-key rule of the query reaches the transport; a parameter error or "Invalid time value" stops it otherwise |
| `Batch.ItemRecords` | nodes/Bcra/Bcra.node.ts:80-144 | an item's `try` block fails exactly when no body arrives or the body is `null`, with the first error's message; on success it yields the response's record count, all tagged with the item, the catalog label and the identifier |
| `Batch.ItemFailureCauses` | nodes/Bcra/Bcra.node.ts:81-120 | an item fails iff its parameters do not resolve, a date does not parse, the transport throws on the request built from its query, or the body is `null` |
| `Batch.ErrorRecord` | nodes/Bcra/Bcra.node.ts:148-155 | the error record has exactly the key `error`, holding the message, and is tagged with the item |
| `Batch.ItemOutput` | nodes/Bcra/Bcra.node.ts:146-158 | an item aborts the run iff it failed and continue-on-fail is off, and then with its own message; otherwise it contributes `Count` records: a successful item's records unchanged, or for a failed item one record holding only `error: message`, tagged with the item |
| `Batch.FoldLayout` | nodes/Bcra/Bcra.node.ts:79-162 | the output is the per-item contributions concatenated in index order: item i's records occupy exactly positions Total(i) to Total(i+1), and the length is the sum of the per-item counts |
| `Batch.FoldTags` | nodes/Bcra/Bcra.node.ts:79-162 | every output record names one of the items handled, and the `pairedItem` values never decrease along the output |
| `Batch.AbortPersists` | nodes/Bcra/Bcra.node.ts:156-158 | once an item aborts, no later item changes the outcome |
| `Batch.FoldAborts` | nodes/Bcra/Bcra.node.ts:146-162 | the loop succeeds iff continue-on-fail is set or no item fails; an abort carries the message of the first failing item |
| `Batch.FoldIsolates` | nodes/Bcra/Bcra.node.ts:146-155 | under continue-on-fail, a failed item's error record sits at that item's place in the output |
| `Batch.Execute` | nodes/Bcra/Bcra.node.ts:74-163 | the imperative loop returns exactly what the fold over the per-item outcomes returns |
| `Batch.RunTraceability` | nodes/Bcra/Bcra.node.ts:79-155 | every record of a run has `pairedItem` in [0, N), and the values never decrease |
| `Batch.RunLayout` | nodes/Bcra/Bcra.node.ts:79-162 | a run's output holds each item's records or error record in index order, and its length is the sum of the per-item counts |
| `Batch.TotalIsExpected` | nodes/Bcra/Bcra.node.ts:120-155 | the per-item record counts add up to the counts read off the responses: the `results` length, one for any other body, one for a failure |
| `Batch.RunLength` | nodes/Bcra/Bcra.node.ts:79-162 | a run that does not abort returns exactly the sum over items of the `results` length, one for any other body, and one error record per failure |
| `Batch.RunAborts` | nodes/Bcra/Bcra.node.ts:146-162 | a run aborts iff continue-on-fail is off and some item fails, and then it carries the first failing item's message |
| `Batch.ContinueOnFailIsolates` | nodes/Bcra/Bcra.node.ts:146-155 | under continue-on-fail the run never aborts, and a failing item's place holds `{error: message}` tagged with that item |
| `Scenarios.TimestampTruncated` | nodes/Bcra/Bcra.node.ts:90 | `"2024-03-15T10:30:00Z"` is sent as `"2024-03-15"` |
| `Scenarios.OmissionRules` | nodes/Bcra/Bcra.node.ts:87-104 | with empty dates, `limit` 0 and `offset` 0 the query is exactly `{offset: 0}` |
| `Scenarios.SingleItemRun` | nodes/Bcra/Bcra.node.ts:114-144 | a one-item run with default parameters returns the normalised records of the body it receives |
| `Scenarios.ScenarioArray` | nodes/Bcra/Bcra.node.ts:120-132 | a two-element `results` array yields two records for item 0, in array order, each merged with the label and identifier |
| `Scenarios.ScenarioObject` | nodes/Bcra/Bcra.node.ts:133-144 | a body without `results` yields one record: the body merged with the label and identifier |
| `Scenarios.ScenarioTransportFailure` | nodes/Bcra/Bcra.node.ts:146-155 | with continue-on-fail, a good item followed by a throwing one yields its record and then `{error: message}` tagged 1 |

## Left out

- The HTTP call (`this.helpers.httpRequest`), the URL template and the flag that skips TLS certificate validation are not modelled: they are network I/O. Each item's transport is an input function from the request to a body or an error.
- JavaScript `Date` parsing and `toISOString` are not modelled, because they depend on time zones and platform parsing rules. The parser is an input; only the omission rule and the `split('T')[0]` truncation are modelled.
- The `description` object (display names, defaults, minimum values) is declarative UI metadata with no behaviour.
- The contents of `bcraOptions` are not part of this model; the catalog is an arbitrary sequence of `(value, name)` entries.
- Host helpers are inputs: `getNodeParameter` becomes a per-item `Result<Params>` and `continueOnFail()` a boolean. `returnJsonArray` is taken to wrap each element as `{json: element}`; its special case for elements that already have a `json` key is not modelled.
- `NodeApiError` wrapping is not modelled: an aborted run carries the failing item's own message, not the node context the wrapper adds.
- `async`/`await` is not modelled; the loop is strictly sequential.
- Normalization.Normalize: an over-long `results` array is not modelled as a failure. The source spreads all records into one `returnData.push(...)` call, which throws a `RangeError` once the argument count passes the JavaScript engine's limit (on the order of 10^5); the item then fails. The model yields n records for every n.
- Batch.RunLength: for the same reason, the length it states does not hold in the source when an item's `results` array is longer than the engine's argument limit; such an item fails there instead.
- JSON numbers are integers here; floating point is not modelled, since the node only copies numbers through.
- The key order of JavaScript objects is not kept; records are maps from key to value.
- A `limit` of `NaN` (also falsy in JavaScript) is not modelled, and neither is an `undefined` `limit`; `limit` is an integer.
- A thrown value without a `message` (which would give `{error: undefined}`) is not modelled; every error carries a message string.
- The `__proto__` key, which object spread treats specially, and the UTF-16 code-unit indexing of string spread are not modelled; strings are sequences of Dafny characters.

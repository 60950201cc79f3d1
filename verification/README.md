# Source command builder (GraphQL Engine console)

A Dafny model of the console's source command builder. It is three stateless
functions that turn a UI request into a command descriptor `{ type, args }`
for the metadata API:

- `addSource` registers a data source. It dispatches on the driver tag.
  - `mssql` builds `mssql_add_source`.
  - `bigquery` builds `bigquery_add_source`. The credential is either JSON text
    to parse or an environment indirection, and the comma-separated dataset
    list is split and trimmed.
  - Every other tag, `mysql` included, builds `pg_add_source`. Its replica
    list becomes `null` when absent or empty.
  - `replace_configuration` defaults to `false`.
- `removeSource` builds `<prefix>drop_source` with only the name. The prefix
  is `mssql_`, `mysql_` or `bigquery_`, and `pg_` for every other tag.
- `reloadSource` wraps one name in a `reload_metadata` command.

The source is pure, so the model is pure too: datatypes, functions and lemmas.

Files:

- `wrappers.dfy`: `Option` (TypeScript's optional field, with `GetOr` for `??`) and `Result`.
- `js_strings.dfy`: `String.prototype.split` with a one-character separator, and `String.prototype.trim`. Each comes with an independent characterisation: `Join` as the inverse of `Split`, and `IsTrimOf` as the specification of `Trim`.
- `sources.dfy`: the data model and the three operations.
- `sources_properties.dfy`: properties that relate several calls.

Modelling choices:

- `dbUrl` is the datatype `Literal(text) | FromEnv(fromEnv)`. It replaces the runtime `typeof` test.
- `Driver` is `Postgres | Mssql | Mysql | BigQuery | Other(tag)`. The tag of `Other` has the type `OtherTag`, which excludes `postgres`, `mssql`, `mysql` and `bigquery`. So `Other` covers every tag except the four the model names. The builder compares tags only with `mssql`, `bigquery` and `mysql`, so such a tag takes the default path of both functions, as `postgres` does; `mysql` also takes it in `addSource`. `DriverTag` maps every driver to one distinct tag.
- The read-replica type is declared in a file this model does not include. The credential is whatever `JSON.parse` returns. Both are plain `Json` values here, passed through untouched.
- `JSON.parse` is the parameter `parseJson: string -> Option<Json>`. `None` stands for the thrown `SyntaxError`. The thrown error becomes `Failure(MalformedServiceAccount(text))` of the `Result` that `AddSource` returns.
- `IsWhitespace` lists the ECMAScript WhiteSpace and LineTerminator code points. These are the characters `trim` removes; for the Space_Separator category the list follows current Unicode.

## Model

| member | source | states |
|---|---|---|
| `SourcesUtils.AddSource` | console/src/metadata/sourcesUtils.ts:4-73 | Fails exactly when the driver is `bigquery`, the credential is literal and the text is not JSON. Every success is an add command with the payload's name and the replace flag (true only when given as true). `mssql` gives `mssql_add_source` with the URL and pool settings unchanged. `bigquery` gives `bigquery_add_source` with the project id, the split-and-trimmed datasets and the parsed or passed-on credential. Every other driver gives `pg_add_source` with the URL and pool settings unchanged and replicas `null` exactly when absent or empty, otherwise the same list. |
| `SourcesUtils.ReplaceFlag` | console/src/metadata/sourcesUtils.ts:23 | The effective flag is true exactly when the payload gives `true`, so an omitted flag is `false`. |
| `SourcesUtils.ReadReplicas` | console/src/metadata/sourcesUtils.ts:68 | `null` exactly when the list is absent or of length 0; otherwise the identical input list. |
| `SourcesUtils.ServiceAccountOf` | console/src/metadata/sourcesUtils.ts:41-44 | An environment indirection is passed on unchanged. Literal text becomes its parse, and unparsable text fails with that text. |
| `SourcesUtils.Datasets` | console/src/metadata/sourcesUtils.ts:52 | One entry per comma plus one. Entry `i` is the trimmed `i`-th comma-free segment, in order, and no entry holds a comma. |
| `SourcesUtils.RemoveSource` | console/src/metadata/sourcesUtils.ts:75-97 | The args hold only the name. The type is `mssql_drop_source`, `mysql_drop_source` or `bigquery_drop_source` for those drivers, and `pg_drop_source` for postgres and every unrecognised tag. The same dispatch is also stated over the driver's tag string: a tag other than `mssql`, `mysql` and `bigquery` gives `pg_drop_source`. |
| `SourcesUtils.ReloadSource` | console/src/metadata/sourcesUtils.ts:99-106 | The type is `reload_metadata` and `reload_sources` is the one-element list holding the name, for every name. |
| `SourcesProperties.MysqlAddDropAsymmetry` | console/src/metadata/sourcesUtils.ts:24-89 | `mysql` is added with `pg_add_source` but dropped with `mysql_drop_source`, which differs from the Postgres drop command. |
| `SourcesProperties.RemoveSourceKindDistinguishesFamilies` | console/src/metadata/sourcesUtils.ts:76-92 | Two drop commands have the same type exactly when the drivers are the same non-Postgres tag, or both are Postgres or unrecognised. |
| `SourcesProperties.AddSourceDispatchesOnTag` | console/src/metadata/sourcesUtils.ts:24-59 | Over the driver's tag string: `mssql` gives `mssql_add_source`, a successful `bigquery` call gives `bigquery_add_source`, and every other tag, `postgres` and `mysql` included, succeeds with `pg_add_source`. |
| `SourcesProperties.DriverTagInjective` | console/src/metadata/sourcesUtils.ts:77-89 | Two drivers have the same tag exactly when they are the same driver, so an `Other` value never carries one of the four named tags. |
| `SourcesProperties.ReloadSourceInjective` | console/src/metadata/sourcesUtils.ts:99-106 | Two reload commands are equal exactly when their names are equal. |
| `SourcesProperties.AddSourceIgnoresReplicasOutsidePg` | console/src/metadata/sourcesUtils.ts:20-57 | For `mssql` and `bigquery` the result does not depend on the replicas. |
| `SourcesProperties.AddSourceParsesOnlyLiteralCredentials` | console/src/metadata/sourcesUtils.ts:40-44 | Unless the driver is `bigquery` with a literal credential, the result does not depend on the JSON parser. |
| `SourcesProperties.DatasetsOfJoinedPieces` | console/src/metadata/sourcesUtils.ts:52 | Reading comma-joined comma-free pieces gives those pieces trimmed, one for one and in order. |
| `SourcesProperties.DatasetsOfJoin` | console/src/metadata/sourcesUtils.ts:52 | Reading the datasets inverts writing names joined by commas, when the names hold no comma and no surrounding whitespace. |
| `SourcesProperties.DatasetsSingle` | console/src/metadata/sourcesUtils.ts:52 | Text without commas gives a single dataset: the text trimmed. |
| `SourcesProperties.DatasetsOfThreePieces` | console/src/metadata/sourcesUtils.ts:52 | Three comma-joined comma-free pieces give exactly three datasets, each its piece trimmed. |
| `SourcesProperties.DatasetsExample` | console/src/metadata/sourcesUtils.ts:52 | The dataset text `"a, b ,c"` gives the three datasets `a`, `b` and `c`. |
| `SourcesProperties.DatasetsOfEmptyText` | console/src/metadata/sourcesUtils.ts:52 | The empty text gives one empty dataset name, not an empty list. |
| `JsStrings.Split` | console/src/metadata/sourcesUtils.ts:52 | `split(',')` gives one piece per separator plus one. No piece holds the separator, and joining the pieces with it gives back the text. |
| `JsStrings.CountCharIsMultiplicity` | console/src/metadata/sourcesUtils.ts:52 | The separator count behind `split`'s piece count is the multiplicity of that character in the text. |
| `JsStrings.SplitOfJoin` | console/src/metadata/sourcesUtils.ts:52 | Splitting the join of a non-empty list of separator-free pieces gives back those pieces. With `Split`'s contract, the two are inverse. |
| `JsStrings.SplitWithoutSeparator` | console/src/metadata/sourcesUtils.ts:52 | Text without the separator splits into itself alone. |
| `JsStrings.Trim` | console/src/metadata/sourcesUtils.ts:52 | `trim()` gives a contiguous slice of the input. Only whitespace lies outside the slice, and neither end of the slice is whitespace. |
| `JsStrings.TrimOfUnique` | console/src/metadata/sourcesUtils.ts:52 | At most one string is the trimmed form of a given input. |
| `JsStrings.TrimCharacterised` | console/src/metadata/sourcesUtils.ts:52 | `r` is the trimmed form of `s` exactly when `r == Trim(s)`. |
| `JsStrings.TrimIdempotent` | console/src/metadata/sourcesUtils.ts:52 | Trimming twice equals trimming once. |

## Left out

- Sending the command descriptors to the metadata API: network I/O done by other parts of the console.
- `JSON.parse` itself is a parameter. The model states only that its result is passed on and that its failure propagates, not RFC 8259 syntax.
- The fields of a read replica are not checked: a replica is a generic `Json` value. Its type is declared in a file that is not part of this model. The credential is whatever `JSON.parse` returns, modelled as `Json`.
- JavaScript strings are sequences of UTF-16 code units. Here `string` is a sequence of Unicode scalar values, so a dataset text holding a lone surrogate has no counterpart in the model. On every text the model can represent, `split(',')` and `trim()` behave as in JavaScript.
- Pool-setting values are JavaScript numbers, which may be fractional. The model uses optional `int` values with no bounds, because the source validates none. The values are only passed through, so this changes no behaviour.
- The difference between an `undefined` field and an absent key in the output object is not modelled. Every optional field is an `Option`.
- The Space_Separator list in `IsWhitespace` is fixed at current Unicode. A JavaScript engine follows the Unicode version it ships with.
